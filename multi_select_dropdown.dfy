/** The multi-select dropdown of the marketplace filters: a button labelled with the number
    of chosen options, a panel of checkboxes that opens and closes on the button, and closes
    on any press outside the component. */
module MultiSelectDropdown {
  import opened Wrappers
  import opened Seqs
  import opened Text

  /** The button's label: "<title> (<n>)" for n > 0 chosen options, otherwise "All <title>". */
  function SelectionText(title: string, selected: seq<string>): (r: string)
    ensures |selected| == 0 ==> r == "All " + title
    ensures |selected| > 0 ==> title + " (" <= r && r[|r| - 1] == ')'
  {
    if |selected| > 0 then title + " (" + IntToString(|selected|) + ")" else "All " + title
  }

  /** The count shown in a label can be read back: for a title without "(", the text after
      the "(" starts with the number of chosen options. */
  lemma SelectionTextCount(title: string, selected: seq<string>)
    requires '(' !in title && |selected| > 0
    ensures var parts := Split(SelectionText(title, selected), '(');
      |parts| == 2 && parts[0] == title + " " && ParseInt(parts[1]) == Some(|selected|)
  {
    var digits := IntToString(|selected|);
    var tail := digits + ")";
    assert SelectionText(title, selected) == (title + " ") + ("(" + tail);
    assert '(' !in digits by { assert AllDigits(NatToString(|selected|)); }
    assert '(' !in tail;
    SplitJoin([tail], '(');
    assert Split(tail, '(') == [tail];
    assert ("(" + tail)[1..] == tail;
    assert Split("(" + tail, '(') == [""] + [tail];
    SplitPrefix(title + " ", "(" + tail, '(');
    ParseIntAfterIntToString(|selected|, ")");
  }

  /** Whether each option's checkbox is ticked. */
  function Checkboxes(options: seq<string>, selected: seq<string>): (r: seq<bool>)
    ensures |r| == |options|
    ensures forall i :: 0 <= i < |r| ==> (r[i] <==> options[i] in selected)
  {
    seq(|options|, i requires 0 <= i < |options| => Includes(selected, options[i]))
  }

  /** The dropdown's state field. */
  class Dropdown {
    var isOpen: bool

    constructor ()
      ensures !isOpen
    {
      isOpen := false;
    }

    /** A click on the button: it flips the panel unless the dropdown is disabled. */
    method Click(disabled: bool)
      modifies this
      ensures disabled ==> isOpen == old(isOpen)
      ensures !disabled ==> isOpen == !old(isOpen)
    {
      if !disabled {
        isOpen := !isOpen;
      }
    }

    /** A press anywhere in the document: outside the component it closes the panel. */
    method MouseDown(inside: bool)
      modifies this
      ensures inside ==> isOpen == old(isOpen)
      ensures !inside ==> !isOpen
    {
      if !inside {
        isOpen := false;
      }
    }
  }
}
