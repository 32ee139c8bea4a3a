/** The few string operations of Python that the modelled code relies on. */
module PythonText {
  /** The characters that str.strip removes. */
  predicate IsSpace(c: char) {
    || '\U{0009}' <= c <= '\U{000D}' || '\U{001C}' <= c <= '\U{0020}'
    || c == '\U{0085}' || c == '\U{00A0}' || c == '\U{1680}' || '\U{2000}' <= c <= '\U{200A}'
    || c == '\U{2028}' || c == '\U{2029}' || c == '\U{202F}' || c == '\U{205F}' || c == '\U{3000}'
  }

  /** "".join(parts) */
  function Join(parts: seq<string>): string {
    if parts == [] then "" else Join(parts[..|parts| - 1]) + parts[|parts| - 1]
  }

  lemma JoinOne(parts: seq<string>, text: string)
    ensures Join(parts + [text]) == Join(parts) + text
  {
    assert (parts + [text])[..|parts|] == parts;
  }

  /** The position of the first colon, or the length. */
  function Colon(s: string): (k: nat)
    ensures k <= |s|
    ensures k < |s| ==> s[k] == ':'
    ensures forall i :: 0 <= i < k ==> s[i] != ':'
  {
    if s == "" || s[0] == ':' then 0 else 1 + Colon(s[1..])
  }

  function StripLeft(s: string): string {
    if s != "" && IsSpace(s[0]) then StripLeft(s[1..]) else s
  }

  function StripRight(s: string): string {
    if s != "" && IsSpace(s[|s| - 1]) then StripRight(s[..|s| - 1]) else s
  }

  function Strip(s: string): string {
    StripRight(StripLeft(s))
  }

  lemma {:induction false} StripKeeps(s: string, i: nat)
    requires i < |s| && !IsSpace(s[i])
    ensures s[i] in StripLeft(s) && s[i] in StripRight(s)
  {
    if IsSpace(s[0]) {
      StripKeeps(s[1..], i - 1);
    }
    if IsSpace(s[|s| - 1]) {
      StripKeeps(s[..|s| - 1], i);
    }
  }

  lemma InStripped(s: string, i: nat)
    requires i < |s| && !IsSpace(s[i])
    ensures s[i] in Strip(s)
  {
    StripKeeps(s, i);
    var k :| 0 <= k < |StripLeft(s)| && StripLeft(s)[k] == s[i];
    StripKeeps(StripLeft(s), k);
  }

  lemma {:induction false} SpacesBefore(spaces: string, s: string)
    requires forall i :: 0 <= i < |spaces| ==> IsSpace(spaces[i])
    ensures StripLeft(spaces + s) == StripLeft(s)
  {
    if spaces == "" {
      assert spaces + s == s;
    } else {
      assert (spaces + s)[1..] == spaces[1..] + s;
      SpacesBefore(spaces[1..], s);
    }
  }

  lemma {:induction false} SpacesAfter(s: string, spaces: string)
    requires forall i :: 0 <= i < |spaces| ==> IsSpace(spaces[i])
    ensures StripRight(s + spaces) == StripRight(s)
  {
    if spaces == "" {
      assert s + spaces == s;
    } else {
      var n := |spaces| - 1;
      assert (s + spaces)[..|s + spaces| - 1] == s + spaces[..n];
      SpacesAfter(s, spaces[..n]);
    }
  }

  /** White space around a text that has none at its ends is all that is removed. */
  lemma {:induction false} StripIsExact(before: string, s: string, after: string)
    requires forall i :: 0 <= i < |before| ==> IsSpace(before[i])
    requires forall i :: 0 <= i < |after| ==> IsSpace(after[i])
    requires s != "" && !IsSpace(s[0]) && !IsSpace(s[|s| - 1])
    ensures Strip(before + (s + after)) == s
  {
    SpacesBefore(before, s + after);
    assert (s + after)[0] == s[0];
    SpacesAfter(s, after);
  }

  /** str.lower, as far as its result can be a lower-case ASCII letter: the Kelvin sign is
      the one character outside ASCII that it maps there. */
  function LowerChar(c: char): char {
    if 'A' <= c <= 'Z' then (c as int + 32) as char
    else if c == '\U{212A}' then 'k'
    else c
  }

  function Lower(s: string): (r: string)
    ensures |r| == |s|
  {
    seq(|s|, i requires 0 <= i < |s| => LowerChar(s[i]))
  }
}
