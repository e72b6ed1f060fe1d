/**
 * The order of the charset lists of the Change Encoding dialog
 * (ChangeEncodingDialog.specialPosition and createCharsetModel): four common
 * charsets first, in a fixed order, then every other charset by name, ignoring
 * case. The lists are built by adding every available charset to a sorted set
 * that drops elements comparing equal to one already present, optionally
 * removing those that cannot encode, and copying the rest in order.
 */
module CharsetOrder {
  import opened Text

  /** The charsets listed first, in this order. */
  const SpecialCharsets: seq<string> := ["UTF-8", "ISO-8859-1", "ISO-8859-15", "windows-1252"]

  /** The position given to every charset that is not special. */
  const NotSpecial: int := 1_000_000

  /** specialPosition: the index of an exact (case-sensitive) match, or NotSpecial. */
  function SpecialRank(name: string): (r: int)
    ensures 0 <= r < |SpecialCharsets| || r == NotSpecial
    ensures 0 <= r < |SpecialCharsets| ==> SpecialCharsets[r] == name
    ensures r == NotSpecial <==> name !in SpecialCharsets
  {
    if name == SpecialCharsets[0] then 0
    else if name == SpecialCharsets[1] then 1
    else if name == SpecialCharsets[2] then 2
    else if name == SpecialCharsets[3] then 3
    else NotSpecial
  }

  /** specialPosition's search loop. */
  method SpecialPosition(name: string) returns (r: int)
    ensures r == SpecialRank(name)
  {
    var i := 0;
    while i < |SpecialCharsets|
      invariant 0 <= i <= |SpecialCharsets|
      invariant forall j :: 0 <= j < i ==> SpecialCharsets[j] != name
    {
      if SpecialCharsets[i] == name {
        return i;
      }
      i := i + 1;
    }
    return NotSpecial;
  }

  /**
   * String.compareToIgnoreCase on ASCII: the difference of the first differing
   * lower-cased characters, or of the lengths when one name is a prefix of the
   * other.
   */
  function CompareIgnoreCase(a: string, b: string): int
  {
    if a == [] || b == [] then |a| - |b|
    else if LowerChar(a[0]) != LowerChar(b[0]) then LowerChar(a[0]) as int - LowerChar(b[0]) as int
    else CompareIgnoreCase(a[1..], b[1..])
  }

  /** Swapping the arguments negates the comparison. */
  lemma {:induction false} CompareIgnoreCaseNegates(a: string, b: string)
    ensures CompareIgnoreCase(a, b) == -CompareIgnoreCase(b, a)
  {
    if a != [] && b != [] && LowerChar(a[0]) == LowerChar(b[0]) {
      CompareIgnoreCaseNegates(a[1..], b[1..]);
    }
  }

  /** Two names compare equal exactly when their lower-case forms are equal. */
  lemma {:induction false} CompareIgnoreCaseZero(a: string, b: string)
    ensures CompareIgnoreCase(a, b) == 0 <==> Lower(a) == Lower(b)
  {
    if a != [] && b != [] {
      CompareIgnoreCaseZero(a[1..], b[1..]);
      assert Lower(a) == [LowerChar(a[0])] + Lower(a[1..]);
      assert Lower(b) == [LowerChar(b[0])] + Lower(b[1..]);
    }
  }

  /** The ignore-case comparison is transitive. */
  lemma {:induction false} CompareIgnoreCaseTransitive(a: string, b: string, c: string)
    requires CompareIgnoreCase(a, b) < 0 && CompareIgnoreCase(b, c) < 0
    ensures CompareIgnoreCase(a, c) < 0
  {
    if a != [] && b != [] && c != [] {
      if LowerChar(a[0]) == LowerChar(c[0]) {
        CompareIgnoreCaseTransitive(a[1..], b[1..], c[1..]);
      }
    }
  }

  /**
   * The createCharsetModel comparator: by special position when the positions
   * differ, by name ignoring case otherwise.
   */
  function Compare(a: string, b: string): (r: int)
    ensures SpecialRank(a) != SpecialRank(b) ==> (r < 0 <==> SpecialRank(a) < SpecialRank(b))
    ensures SpecialRank(a) == SpecialRank(b) ==> r == CompareIgnoreCase(a, b)
  {
    if SpecialRank(a) != SpecialRank(b) then SpecialRank(a) - SpecialRank(b) else CompareIgnoreCase(a, b)
  }

  /** Every special charset comes before every other charset. */
  lemma SpecialsFirst(a: string, b: string)
    requires a in SpecialCharsets && b !in SpecialCharsets
    ensures Compare(a, b) < 0
  {
  }

  /** The comparator is antisymmetric. */
  lemma CompareNegates(a: string, b: string)
    ensures Compare(a, b) == -Compare(b, a)
  {
    CompareIgnoreCaseNegates(a, b);
  }

  /** The comparator is transitive. */
  lemma CompareTransitive(a: string, b: string, c: string)
    requires Compare(a, b) < 0 && Compare(b, c) < 0
    ensures Compare(a, c) < 0
  {
    if SpecialRank(a) == SpecialRank(b) == SpecialRank(c) {
      CompareIgnoreCaseTransitive(a, b, c);
    }
  }

  /** Every name compares equal to itself. */
  lemma CompareReflexive(a: string)
    ensures Compare(a, a) == 0
  {
    CompareIgnoreCaseNegates(a, a);
  }

  /** Each element comes strictly before every later one. */
  predicate StrictlyIncreasing(s: seq<string>)
  {
    forall i, j :: 0 <= i < j < |s| ==> Compare(s[i], s[j]) < 0
  }

  /** TreeSet.add: `x` goes in its place, unless an equal element is already there. */
  function Insert(s: seq<string>, x: string): (r: seq<string>)
    ensures forall y :: y in r ==> y in s || y == x
    ensures forall y :: y in s ==> y in r
  {
    if s == [] then [x]
    else if Compare(x, s[0]) < 0 then [x] + s
    else if Compare(x, s[0]) == 0 then s
    else [s[0]] + Insert(s[1..], x)
  }

  /** After adding `x`, the set holds `x` or an element comparing equal to it. */
  lemma {:induction false} InsertCovers(s: seq<string>, x: string)
    ensures exists y :: y in Insert(s, x) && Compare(x, y) == 0
  {
    if s == [] || Compare(x, s[0]) < 0 {
      CompareReflexive(x);
      assert x in Insert(s, x);
    } else if Compare(x, s[0]) == 0 {
      assert s[0] in Insert(s, x);
    } else {
      InsertCovers(s[1..], x);
      var y :| y in Insert(s[1..], x) && Compare(x, y) == 0;
      assert y in Insert(s, x);
    }
  }

  /** A sorted sequence stays sorted when an element smaller than all of it goes in front. */
  lemma ConsIncreasing(h: string, s: seq<string>)
    requires StrictlyIncreasing(s)
    requires forall y :: y in s ==> Compare(h, y) < 0
    ensures StrictlyIncreasing([h] + s)
  {
    var r := [h] + s;
    forall i, j | 0 <= i < j < |r| ensures Compare(r[i], r[j]) < 0 {
      assert r[j] == s[j - 1];
      if i > 0 {
        assert r[i] == s[i - 1];
      }
    }
  }

  /** An element before the first of a sorted sequence is before all of it. */
  lemma BeforeFirstBeforeAll(x: string, s: seq<string>)
    requires StrictlyIncreasing(s) && s != [] && Compare(x, s[0]) < 0
    ensures forall y :: y in s ==> Compare(x, y) < 0
  {
    forall y | y in s ensures Compare(x, y) < 0 {
      var k :| 0 <= k < |s| && s[k] == y;
      if k > 0 {
        CompareTransitive(x, s[0], y);
      }
    }
  }

  /** Adding to a sorted set keeps it sorted. */
  lemma {:induction false} InsertKeepsOrder(s: seq<string>, x: string)
    requires StrictlyIncreasing(s)
    ensures StrictlyIncreasing(Insert(s, x))
  {
    if s == [] {
    } else if Compare(x, s[0]) < 0 {
      BeforeFirstBeforeAll(x, s);
      ConsIncreasing(x, s);
    } else if Compare(x, s[0]) > 0 {
      var tail := s[1..];
      assert StrictlyIncreasing(tail) by {
        forall i, j | 0 <= i < j < |tail| ensures Compare(tail[i], tail[j]) < 0 {
          assert tail[i] == s[i + 1] && tail[j] == s[j + 1];
        }
      }
      InsertKeepsOrder(tail, x);
      CompareNegates(x, s[0]);
      forall y | y in tail ensures Compare(s[0], y) < 0 {
        var k :| 0 <= k < |tail| && tail[k] == y;
        assert s[k + 1] == y;
      }
      ConsIncreasing(s[0], Insert(tail, x));
    }
  }

  /** TreeSet.addAll over the available charsets, in the order they are given. */
  function TreeOf(names: seq<string>): (r: seq<string>)
    ensures forall y :: y in r ==> y in names
  {
    if names == [] then []
    else
      var init := names[..|names| - 1];
      assert forall y :: y in init ==> y in names;
      Insert(TreeOf(init), names[|names| - 1])
  }

  /** Every available name is in the set or has an element comparing equal to it there. */
  lemma {:induction false} TreeOfCovers(names: seq<string>, i: nat)
    requires i < |names|
    ensures exists y :: y in TreeOf(names) && Compare(names[i], y) == 0
  {
    var init := names[..|names| - 1];
    var last := names[|names| - 1];
    if i == |names| - 1 {
      InsertCovers(TreeOf(init), last);
    } else {
      TreeOfCovers(init, i);
      assert init[i] == names[i];
      var y :| y in TreeOf(init) && Compare(names[i], y) == 0;
      assert y in TreeOf(names);
    }
  }

  /** The set built by addAll is sorted. */
  lemma {:induction false} TreeOfIncreasing(names: seq<string>)
    ensures StrictlyIncreasing(TreeOf(names))
  {
    if names != [] {
      TreeOfIncreasing(names[..|names| - 1]);
      InsertKeepsOrder(TreeOf(names[..|names| - 1]), names[|names| - 1]);
    }
  }

  /** When no two available names compare equal, addAll keeps every one of them. */
  lemma TreeOfKeepsDistinct(names: seq<string>)
    requires forall i, j :: 0 <= i < |names| && 0 <= j < |names| && i != j ==> Compare(names[i], names[j]) != 0
    ensures forall i :: 0 <= i < |names| ==> names[i] in TreeOf(names)
  {
    forall i | 0 <= i < |names| ensures names[i] in TreeOf(names) {
      TreeOfCovers(names, i);
      var y :| y in TreeOf(names) && Compare(names[i], y) == 0;
      var j :| 0 <= j < |names| && names[j] == y;
    }
  }

  /** removeIf(!canEncode): the elements that can encode, in order. */
  function Keep(s: seq<string>, encodable: set<string>): (r: seq<string>)
    ensures forall y :: y in r <==> y in s && y in encodable
  {
    if s == [] then []
    else
      var init := s[..|s| - 1];
      assert s == init + [s[|s| - 1]];
      Keep(init, encodable) + (if s[|s| - 1] in encodable then [s[|s| - 1]] else [])
  }

  /** Filtering keeps the order. */
  lemma {:induction false} KeepIncreasing(s: seq<string>, encodable: set<string>)
    requires StrictlyIncreasing(s)
    ensures StrictlyIncreasing(Keep(s, encodable))
  {
    if s != [] {
      var init := s[..|s| - 1];
      var last := s[|s| - 1];
      KeepIncreasing(init, encodable);
      var k := Keep(init, encodable);
      if last in encodable {
        forall i, j | 0 <= i < j < |k| + 1 ensures Compare((k + [last])[i], (k + [last])[j]) < 0 {
          if j == |k| {
            assert k[i] in init;
            var m :| 0 <= m < |init| && init[m] == k[i];
            assert s[m] == k[i];
          } else {
            assert (k + [last])[i] == k[i] && (k + [last])[j] == k[j];
          }
        }
      }
    }
  }

  /** The contents of a charset list: with `mustSupport`, only the encodable ones. */
  function CharsetList(available: seq<string>, encodable: set<string>, mustSupport: bool): seq<string>
  {
    if mustSupport then Keep(TreeOf(available), encodable) else TreeOf(available)
  }

  /**
   * The list is sorted with no two entries comparing equal; it holds only
   * available charsets; with `mustSupport` only encodable ones; without it,
   * every available charset is listed or has an equal-comparing entry.
   */
  lemma CharsetListProperties(available: seq<string>, encodable: set<string>, mustSupport: bool)
    ensures var r := CharsetList(available, encodable, mustSupport);
      && StrictlyIncreasing(r)
      && (forall y :: y in r ==> y in available)
      && (mustSupport ==> forall y :: y in r ==> y in encodable)
      && (mustSupport ==> forall y :: y in TreeOf(available) && y in encodable ==> y in r)
      && (!mustSupport ==> forall i :: 0 <= i < |available| ==> exists y :: y in r && Compare(available[i], y) == 0)
  {
    TreeOfIncreasing(available);
    forall i | 0 <= i < |available|
      ensures exists y :: y in TreeOf(available) && Compare(available[i], y) == 0
    {
      TreeOfCovers(available, i);
    }
    if mustSupport {
      KeepIncreasing(TreeOf(available), encodable);
    }
  }

  /** charsets.addAll(available): one TreeSet.add per available charset. */
  method AddAll(available: seq<string>) returns (charsets: seq<string>)
    ensures charsets == TreeOf(available)
  {
    charsets := [];
    var i := 0;
    while i < |available|
      invariant 0 <= i <= |available|
      invariant charsets == TreeOf(available[..i])
    {
      assert available[..i + 1][..i] == available[..i];
      charsets := Insert(charsets, available[i]);
      i := i + 1;
    }
    assert available[..i] == available;
  }

  /** charsets.removeIf(cs -> !cs.canEncode()). */
  method RemoveUnencodable(charsets: seq<string>, encodable: set<string>) returns (kept: seq<string>)
    ensures kept == Keep(charsets, encodable)
  {
    kept := [];
    var j := 0;
    while j < |charsets|
      invariant 0 <= j <= |charsets|
      invariant kept == Keep(charsets[..j], encodable)
    {
      assert charsets[..j + 1][..j] == charsets[..j];
      if charsets[j] in encodable {
        kept := kept + [charsets[j]];
      }
      j := j + 1;
    }
    assert charsets[..j] == charsets;
  }

  /**
   * createCharsetModel: adds every available charset to the sorted set,
   * removes those that cannot encode when `mustSupport` is set, and copies
   * the set into the list model.
   */
  method CreateCharsetModel(available: seq<string>, encodable: set<string>, mustSupport: bool)
    returns (model: seq<string>)
    ensures model == CharsetList(available, encodable, mustSupport)
  {
    var charsets := AddAll(available);
    if mustSupport {
      charsets := RemoveUnencodable(charsets, encodable);
    }
    model := CopyToModel(charsets);
  }

  /** The closing loop of createCharsetModel: each charset of the set is added to the list model in turn. */
  method CopyToModel(charsets: seq<string>) returns (model: seq<string>)
    ensures model == charsets
  {
    model := [];
    var k := 0;
    while k < |charsets|
      invariant 0 <= k <= |charsets|
      invariant model == charsets[..k]
    {
      model := model + [charsets[k]];
      k := k + 1;
    }
    assert charsets[..k] == charsets;
  }
}
