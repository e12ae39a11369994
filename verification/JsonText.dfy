/** How long the text of a JSON value is, in the UTF-16 units in which JavaScript counts. */
module JsonText {
  /** One character inside a string, as `JSON.stringify` writes it. */
  function Written(c: char): (n: nat)
    ensures 1 <= n <= 6
  {
    var code := c as int;
    if c == '\"' || c == '\\' || (8 <= code <= 13 && code != 11) then 2
    else if code < 32 then 6
    else if code > 0xFFFF then 2
    else 1
  }

  function StringLength(s: string): nat {
    if s == "" then 2 else StringLength(s[..|s| - 1]) + Written(s[|s| - 1])
  }

  /** The strings of an array with the commas between them. */
  function ListLength(list: seq<string>): nat {
    if list == [] then 0
    else
      var n := |list| - 1;
      ListLength(list[..n]) + (if n == 0 then 0 else 1) + StringLength(list[n])
  }

  /** A character that is written as it is. */
  predicate Plain(c: char) { Written(c) == 1 }

  lemma {:induction false} PlainLength(s: string)
    requires forall i :: 0 <= i < |s| ==> Plain(s[i])
    ensures StringLength(s) == |s| + 2
  {
    if s != "" {
      var n := |s| - 1;
      PlainLength(s[..n]);
    }
  }
}
