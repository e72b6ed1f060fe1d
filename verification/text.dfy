/**
 * Small value types and string helpers shared by the developer-tool modules:
 * an optional value standing for Java's nullable references, ASCII case
 * conversion, Java's String.trim, and the character replacements that the
 * tool proxies use to derive names from window titles.
 */
module Text {

  /** A nullable reference: None stands for Java's null. */
  datatype Option<+T> = None | Some(value: T)

  /** The lower-case form of an ASCII letter; every other character is kept. */
  function LowerChar(c: char): (r: char)
    ensures 'A' <= c <= 'Z' ==> r as int == c as int + 32
    ensures !('A' <= c <= 'Z') ==> r == c
  {
    if 'A' <= c <= 'Z' then (c as int + 32) as char else c
  }

  /** Lower-cases a string character by character (ASCII only). */
  function Lower(s: string): (r: string)
    ensures |r| == |s|
    ensures forall i :: 0 <= i < |s| ==> r[i] == LowerChar(s[i])
  {
    seq(|s|, i requires 0 <= i < |s| => LowerChar(s[i]))
  }

  /** Every occurrence of character `a` replaced by `b` (Java's String.replace(char, char)). */
  function ReplaceChar(s: string, a: char, b: char): (r: string)
    ensures |r| == |s|
    ensures forall i :: 0 <= i < |s| ==> r[i] == (if s[i] == a then b else s[i])
  {
    seq(|s|, i requires 0 <= i < |s| => if s[i] == a then b else s[i])
  }

  /** The string with every space removed (Java's replace(" ", "")). */
  function RemoveSpaces(s: string): (r: string)
    ensures ' ' !in r
    ensures |r| <= |s|
    ensures forall c :: c != ' ' ==> multiset(r)[c] == multiset(s)[c]
  {
    if s == [] then []
    else
      assert s == [s[0]] + s[1..];
      (if s[0] == ' ' then [] else [s[0]]) + RemoveSpaces(s[1..])
  }

  /** Java's trim: characters up to and including U+0020 are white space. */
  predicate IsTrimmed(c: char) { c <= ' ' }

  /** The first index at or after `i` that is not white space (or |s|). */
  function SkipLeading(s: string, i: nat): (k: nat)
    requires i <= |s|
    ensures i <= k <= |s|
    ensures forall j :: i <= j < k ==> IsTrimmed(s[j])
    ensures k < |s| ==> !IsTrimmed(s[k])
    decreases |s| - i
  {
    if i < |s| && IsTrimmed(s[i]) then SkipLeading(s, i + 1) else i
  }

  /** The end, not below `st`, left after dropping the white space before index `len`. */
  function SkipTrailing(s: string, st: nat, len: nat): (k: nat)
    requires st <= len <= |s|
    ensures st <= k <= len
    ensures forall j :: k <= j < len ==> IsTrimmed(s[j])
    ensures k > st ==> !IsTrimmed(s[k - 1])
    decreases len
  {
    if st < len && IsTrimmed(s[len - 1]) then SkipTrailing(s, st, len - 1) else len
  }

  /**
   * Java's String.trim: the slice of `s` between its leading white space
   * (the first `a` characters) and its trailing white space.
   */
  function Trim(s: string): (r: string)
    ensures |r| <= |s|
    ensures r != [] ==> !IsTrimmed(r[0]) && !IsTrimmed(r[|r| - 1])
    ensures var a := SkipLeading(s, 0);
      && a + |r| <= |s| && r == s[a..a + |r|]
      && (forall i :: 0 <= i < a ==> IsTrimmed(s[i]))
      && (forall i :: a + |r| <= i < |s| ==> IsTrimmed(s[i]))
    ensures s == [] || (!IsTrimmed(s[0]) && !IsTrimmed(s[|s| - 1])) ==> r == s
  {
    var st := SkipLeading(s, 0);
    var len := SkipTrailing(s, st, |s|);
    s[st..len]
  }

  /** Trimming is idempotent. */
  lemma TrimIdempotent(s: string)
    ensures Trim(Trim(s)) == Trim(s)
  {
    var t := Trim(s);
    if t != [] {
      assert SkipLeading(t, 0) == 0;
      assert SkipTrailing(t, 0, |t|) == |t|;
      assert t[0..|t|] == t;
    }
  }
}
