/** The popup in which a moderator sets a ban's length in weeks, days, hours and minutes
    before confirming it. */
module BanUserPopup {
  import opened Wrappers
  import opened Text

  const SecondsPerMinute: int := 60
  const SecondsPerHour: int := 60 * 60
  const SecondsPerDay: int := 24 * 60 * 60
  const SecondsPerWeek: int := 7 * 24 * 60 * 60

  /** The duration the four fields describe, in seconds. */
  function TotalSeconds(weeks: int, days: int, hours: int, minutes: int): (total: int)
  {
    weeks * SecondsPerWeek + days * SecondsPerDay + hours * SecondsPerHour + minutes * SecondsPerMinute
  }

  /** The total is a whole number of minutes; with no negative field it is positive exactly
      when some field is, and every field counts for its own unit. */
  lemma TotalSecondsMeaning(weeks: int, days: int, hours: int, minutes: int)
    ensures TotalSeconds(weeks, days, hours, minutes) == (((weeks * 7 + days) * 24 + hours) * 60 + minutes) * 60
    ensures weeks >= 0 && days >= 0 && hours >= 0 && minutes >= 0 ==>
      (TotalSeconds(weeks, days, hours, minutes) > 0 <==> weeks > 0 || days > 0 || hours > 0 || minutes > 0)
  {
  }

  /** Fields are not clamped at zero: every field adds its own share to the total, so a
      negative field takes its share off the others, and only the sign of the total decides
      (a week less a day is a six-day ban, a day less 24 hours is no ban). */
  lemma NegativeFieldsCount(weeks: int, days: int, hours: int, minutes: int)
    ensures TotalSeconds(weeks, days, hours, minutes)
         == TotalSeconds(weeks, 0, 0, 0) + TotalSeconds(0, days, 0, 0) + TotalSeconds(0, 0, hours, 0) + TotalSeconds(0, 0, 0, minutes)
    ensures weeks < 0 ==> TotalSeconds(weeks, days, hours, minutes) < TotalSeconds(0, days, hours, minutes)
    ensures days < 0 ==> TotalSeconds(weeks, days, hours, minutes) < TotalSeconds(weeks, 0, hours, minutes)
    ensures hours < 0 ==> TotalSeconds(weeks, days, hours, minutes) < TotalSeconds(weeks, days, 0, minutes)
    ensures minutes < 0 ==> TotalSeconds(weeks, days, hours, minutes) < TotalSeconds(weeks, days, hours, 0)
    ensures TotalSeconds(1, -1, 0, 0) == 6 * SecondsPerDay
    ensures TotalSeconds(0, 1, -24, 0) == 0
  {
  }

  /** `parseInt(text) || 0`: the number the text starts with, and 0 for text that does not
      start with one. */
  function InputValue(text: string): (v: int)
    ensures ParseInt(text).Some? ==> v == ParseInt(text).value
    ensures ParseInt(text).None? ==> v == 0
  {
    match ParseInt(text)
    case Some(n) => n
    case None => 0
  }

  /** A number typed into a field is read back as that number. */
  lemma InputValueOfNumber(n: int)
    ensures InputValue(IntToString(n)) == n
  {
    ParseIntAfterIntToString(n, "");
    assert IntToString(n) + "" == IntToString(n);
  }

  /** What pressing "Confirm" does: an alert, or a call of the page's ban handler. */
  datatype Confirmation = Alert(message: string) | ConfirmBan(seconds: int)

  const NoDuration: string := "Please set a ban duration."

  /** The popup's four fields. */
  class Popup {
    var weeks: int
    var days: int
    var hours: int
    var minutes: int

    /** Every field starts at zero. */
    constructor ()
      ensures weeks == 0 && days == 0 && hours == 0 && minutes == 0
    {
      weeks, days, hours, minutes := 0, 0, 0, 0;
    }

    method SetWeeks(text: string)
      modifies this
      ensures weeks == InputValue(text) && days == old(days) && hours == old(hours) && minutes == old(minutes)
    {
      weeks := InputValue(text);
    }

    method SetDays(text: string)
      modifies this
      ensures days == InputValue(text) && weeks == old(weeks) && hours == old(hours) && minutes == old(minutes)
    {
      days := InputValue(text);
    }

    method SetHours(text: string)
      modifies this
      ensures hours == InputValue(text) && weeks == old(weeks) && days == old(days) && minutes == old(minutes)
    {
      hours := InputValue(text);
    }

    method SetMinutes(text: string)
      modifies this
      ensures minutes == InputValue(text) && weeks == old(weeks) && days == old(days) && hours == old(hours)
    {
      minutes := InputValue(text);
    }

    /** `handleConfirm`: a total of zero or less is refused with an alert; any positive total
        is passed on, once. Confirming before any field was changed is refused. */
    method Confirm() returns (c: Confirmation)
      ensures c.ConfirmBan? <==> TotalSeconds(weeks, days, hours, minutes) > 0
      ensures c.ConfirmBan? ==> c.seconds == TotalSeconds(weeks, days, hours, minutes)
      ensures c.Alert? ==> c.message == NoDuration
    {
      var total := weeks * 7 * 24 * 60 * 60 + days * 24 * 60 * 60 + hours * 60 * 60 + minutes * 60;
      if total <= 0 {
        return Alert(NoDuration);
      }
      return ConfirmBan(total);
    }
  }
}
