/** The notices the pages show (toasts and alerts), recorded instead of displayed. */
module Ui {

  /** The kind argument a page passes along with a toast message. */
  datatype Kind = Success | Error | Info | Plain

  datatype Notice = Notice(kind: Kind, message: string)
}
