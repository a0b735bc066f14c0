/** The wishlist as it is kept in the browser's key-value store: `JSON.stringify` of
    an array of listing ids, and `JSON.parse` of such a text. Ids are non-negative
    integers, written in decimal without leading zeros. */
module JsonIds {
  import opened Wrappers
  import opened Text

  /** The decimal numeral of every id, in order. */
  function Numerals(ids: seq<nat>): (r: seq<string>)
    ensures |r| == |ids|
    ensures forall i :: 0 <= i < |ids| ==> r[i] == NatToString(ids[i])
  {
    seq(|ids|, i requires 0 <= i < |ids| => NatToString(ids[i]))
  }

  /** The numerals joined by commas split back at the commas into the same numerals,
      since no numeral holds a comma. */
  lemma SplitNumerals(ids: seq<nat>)
    requires ids != []
    ensures Split(Join(Numerals(ids), ','), ',') == Numerals(ids)
  {
    var parts := Numerals(ids);
    forall k | 0 <= k < |parts| ensures ',' !in parts[k] {
      assert AllDigits(parts[k]);
    }
    SplitJoin(parts, ',');
  }

  /** `JSON.stringify(ids)`: the numerals between brackets, separated by commas. */
  function EncodeIds(ids: seq<nat>): (s: string)
    ensures |s| >= 2 && s[0] == '[' && s[|s| - 1] == ']'
    ensures ids == [] ==> s == "[]"
    ensures ids != [] ==> Split(s[1..|s| - 1], ',') == Numerals(ids)
  {
    if ids == [] then "[]"
    else
      var inner := Join(Numerals(ids), ',');
      SplitNumerals(ids);
      assert ("[" + inner + "]")[1..|inner| + 1] == inner;
      "[" + inner + "]"
  }

  /** A JSON number that denotes a non-negative integer: digits, and no leading zero. */
  predicate IsJsonNat(p: string)
  {
    |p| >= 1 && AllDigits(p) && (|p| == 1 || p[0] != '0')
  }

  function ParseNumbers(parts: seq<string>): (r: Option<seq<nat>>)
    ensures r.Some? ==> |r.value| == |parts|
  {
    if parts == [] then Some([])
    else if !IsJsonNat(parts[0]) then None
    else match ParseNumbers(parts[1..])
      case None => None
      case Some(rest) => Some([DigitsValue(parts[0])] + rest)
  }

  /** `JSON.parse(s)` for a text holding an array of ids; `None` for any other text. */
  function ParseIds(s: string): Option<seq<nat>>
  {
    if |s| < 2 || s[0] != '[' || s[|s| - 1] != ']' then None
    else
      var inner := s[1..|s| - 1];
      if inner == "" then Some([]) else ParseNumbers(Split(inner, ','))
  }

  lemma {:induction false} ParseNumerals(ids: seq<nat>)
    ensures ParseNumbers(Numerals(ids)) == Some(ids)
  {
    if ids != [] {
      ParseNumerals(ids[1..]);
      NatToStringValue(ids[0]);
      assert Numerals(ids)[1..] == Numerals(ids[1..]);
      assert ids == [ids[0]] + ids[1..];
    }
  }

  /** Reading back what was stored gives the same list of ids. */
  lemma ParseEncodeIds(ids: seq<nat>)
    ensures ParseIds(EncodeIds(ids)) == Some(ids)
  {
    var s := EncodeIds(ids);
    if ids != [] {
      var parts := Numerals(ids);
      var inner := Join(parts, ',');
      assert s[1..|s| - 1] == inner;
      assert |inner| >= 1 by { assert parts[0] <= inner; }
      ParseNumerals(ids);
    }
  }
}
