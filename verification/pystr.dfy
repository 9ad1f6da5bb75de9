/**
 * The few pieces of Python string semantics the handler relies on:
 * `str.split(sep, maxsplit)` for a one-character separator, the truthiness
 * of an optional string and the value of `a or b`.
 */
module PyStr {
  import opened Wrappers

  /** Index of the first occurrence of `c` in `s`. */
  function IndexOf(s: string, c: char): (i: nat)
    requires c in s
    ensures i < |s| && s[i] == c && c !in s[..i]
  {
    if s[0] == c then 0
    else
      assert s == [s[0]] + s[1..];
      var j := IndexOf(s[1..], c);
      assert s[..j + 1] == [s[0]] + s[1..][..j];
      1 + j
  }

  /** The first occurrence of `c` in `a + [c] + b` is right after `a` when `a` holds none. */
  lemma IndexOfAfterPrefix(a: string, c: char, b: string)
    requires c !in a
    ensures c in a + [c] + b && IndexOf(a + [c] + b, c) == |a|
  {
    var s := a + [c] + b;
    assert s[|a|] == c && s[..|a|] == a;
    assert forall j | |a| < j <= |s| :: s[..j][|a|] == c;
  }

  /**
   * `s.split(sep, maxsplit)`: cut `s` at the first `maxsplit` occurrences of
   * `sep`, from the left; the last piece keeps any further separators.
   */
  function Split(s: string, sep: char, maxsplit: nat): (r: seq<string>)
    ensures 1 <= |r| <= maxsplit + 1
    ensures maxsplit > 0 && sep in s ==> |r| >= 2
    decreases maxsplit
  {
    if maxsplit == 0 || sep !in s then [s]
    else
      var i := IndexOf(s, sep);
      [s[..i]] + Split(s[i + 1..], sep, maxsplit - 1)
  }

  /** `sep.join(parts)`: the inverse of `Split`. */
  function Join(parts: seq<string>, sep: char): string
    requires |parts| >= 1
  {
    if |parts| == 1 then parts[0] else parts[0] + [sep] + Join(parts[1..], sep)
  }

  /**
   * What `r == s.split(sep, maxsplit)` means, without reference to how it is
   * computed: at most `maxsplit + 1` pieces that join back to `s`, no
   * separator inside any piece but the last, and none in the last either
   * unless all `maxsplit` cuts were made.
   */
  ghost predicate IsSplitOf(r: seq<string>, s: string, sep: char, maxsplit: nat)
  {
    1 <= |r| <= maxsplit + 1 && Join(r, sep) == s &&
    (forall i | 0 <= i < |r| - 1 :: sep !in r[i]) &&
    (|r| <= maxsplit ==> sep !in r[|r| - 1])
  }

  /** Putting a separator-free piece in front of a split gives a split with one cut more. */
  lemma SplitOfCons(a: string, sep: char, b: string, t: seq<string>, maxsplit: nat)
    requires sep !in a && maxsplit >= 1 && IsSplitOf(t, b, sep, maxsplit - 1)
    ensures IsSplitOf([a] + t, a + [sep] + b, sep, maxsplit)
  {
    var r := [a] + t;
    assert r[1..] == t;
    assert Join(r, sep) == a + [sep] + Join(t, sep);
    forall k | 0 <= k < |r| - 1 ensures sep !in r[k] {
      if k > 0 { assert r[k] == t[k - 1]; }
    }
    assert r[|r| - 1] == t[|t| - 1];
  }

  lemma {:induction false} SplitIsSplitOf(s: string, sep: char, maxsplit: nat)
    ensures IsSplitOf(Split(s, sep, maxsplit), s, sep, maxsplit)
    decreases maxsplit
  {
    if maxsplit > 0 && sep in s {
      var i := IndexOf(s, sep);
      var a, b := s[..i], s[i + 1..];
      assert s == a + [sep] + b;
      SplitIsSplitOf(b, sep, maxsplit - 1);
      SplitOfCons(a, sep, b, Split(b, sep, maxsplit - 1), maxsplit);
    }
  }

  /** Peeling the first piece off a split leaves a split of the rest with one cut fewer. */
  lemma SplitOfTail(r: seq<string>, s: string, sep: char, maxsplit: nat)
    requires IsSplitOf(r, s, sep, maxsplit) && |r| >= 2
    ensures maxsplit >= 1 && sep !in r[0] && s == r[0] + [sep] + Join(r[1..], sep) && sep in s
    ensures IsSplitOf(r[1..], Join(r[1..], sep), sep, maxsplit - 1)
  {
    var r' := r[1..];
    forall k | 0 <= k < |r'| - 1 ensures sep !in r'[k] {
      assert r'[k] == r[k + 1];
    }
    assert s[|r[0]|] == sep;
  }

  /** One unfolding of `Split` on a string known to hold a separator after `a`. */
  lemma SplitUnfold(a: string, sep: char, b: string, maxsplit: nat)
    requires sep !in a && maxsplit >= 1
    ensures Split(a + [sep] + b, sep, maxsplit) == [a] + Split(b, sep, maxsplit - 1)
  {
    var s := a + [sep] + b;
    IndexOfAfterPrefix(a, sep, b);
    assert s[..|a|] == a && s[|a| + 1..] == b;
  }

  /** With no cut allowed or no separator present, the split is the whole string. */
  lemma SplitWhole(s: string, sep: char, maxsplit: nat)
    requires maxsplit == 0 || sep !in s
    ensures Split(s, sep, maxsplit) == [s]
  {
  }

  /** A string cut at its first separator has only one way to be cut there. */
  lemma FirstCutUnique(a1: string, b1: string, a2: string, b2: string, sep: char)
    requires sep !in a1 && sep !in a2 && a1 + [sep] + b1 == a2 + [sep] + b2
    ensures a1 == a2 && b1 == b2
  {
    IndexOfAfterPrefix(a1, sep, b1);
    IndexOfAfterPrefix(a2, sep, b2);
    var s := a1 + [sep] + b1;
    assert a1 == s[..|a1|] && b1 == s[|a1| + 1..];
    assert a2 == s[..|a2|] && b2 == s[|a2| + 1..];
  }

  /** A single piece means no cut could be made. */
  lemma SplitOfSingle(r: seq<string>, s: string, sep: char, maxsplit: nat)
    requires IsSplitOf(r, s, sep, maxsplit) && |r| == 1
    ensures r == [s] && (maxsplit == 0 || sep !in s)
  {
  }

  /** Two sequences that both satisfy `IsSplitOf` for the same string are equal. */
  lemma {:induction false} SplitOfUnique(r1: seq<string>, r2: seq<string>, s: string, sep: char, maxsplit: nat)
    requires IsSplitOf(r1, s, sep, maxsplit) && IsSplitOf(r2, s, sep, maxsplit)
    ensures r1 == r2
    decreases maxsplit
  {
    if |r1| == 1 {
      SplitOfSingle(r1, s, sep, maxsplit);
      if |r2| >= 2 {
        SplitOfTail(r2, s, sep, maxsplit);
      } else {
        SplitOfSingle(r2, s, sep, maxsplit);
      }
    } else if |r2| == 1 {
      SplitOfSingle(r2, s, sep, maxsplit);
      SplitOfTail(r1, s, sep, maxsplit);
    } else {
      SplitOfTail(r1, s, sep, maxsplit);
      SplitOfTail(r2, s, sep, maxsplit);
      FirstCutUnique(r1[0], Join(r1[1..], sep), r2[0], Join(r2[1..], sep), sep);
      SplitOfUnique(r1[1..], r2[1..], Join(r1[1..], sep), sep, maxsplit - 1);
    }
  }

  lemma SplitOfIsSplit(r: seq<string>, s: string, sep: char, maxsplit: nat)
    requires IsSplitOf(r, s, sep, maxsplit)
    ensures r == Split(s, sep, maxsplit)
  {
    SplitIsSplitOf(s, sep, maxsplit);
    SplitOfUnique(r, Split(s, sep, maxsplit), s, sep, maxsplit);
  }

  /** `Split` is exactly the function described by `IsSplitOf`. */
  lemma SplitCharacterised(r: seq<string>, s: string, sep: char, maxsplit: nat)
    ensures r == Split(s, sep, maxsplit) <==> IsSplitOf(r, s, sep, maxsplit)
  {
    SplitIsSplitOf(s, sep, maxsplit);
    if IsSplitOf(r, s, sep, maxsplit) {
      SplitOfIsSplit(r, s, sep, maxsplit);
    }
  }

  /** Round trip: joining the pieces of a split gives back the string. */
  lemma JoinSplit(s: string, sep: char, maxsplit: nat)
    ensures Join(Split(s, sep, maxsplit), sep) == s
  {
    SplitIsSplitOf(s, sep, maxsplit);
  }

  /** Round trip the other way: splitting once at the first separator recovers both halves. */
  lemma SplitOnceOf(a: string, sep: char, b: string)
    requires sep !in a
    ensures Split(a + [sep] + b, sep, 1) == [a, b]
  {
    assert Join([a, b], sep) == a + [sep] + b;
    SplitOfIsSplit([a, b], a + [sep] + b, sep, 1);
  }

  /** The first piece of a split, and what it says about the string. */
  lemma SplitHeadShape(s: string, sep: char, maxsplit: nat)
    ensures var head := Split(s, sep, maxsplit)[0];
      s == head || (|s| > |head| && s[..|head| + 1] == head + [sep])
  {
    var r := Split(s, sep, maxsplit);
    SplitIsSplitOf(s, sep, maxsplit);
    if |r| >= 2 {
      SplitOfTail(r, s, sep, maxsplit);
      assert s[..|r[0]| + 1] == r[0] + [sep];
    }
  }

  /**
   * The first piece of a split (with at least one cut allowed) is `m`, a
   * separator-free word, exactly when `s` is `m` or starts with `m` and a separator.
   */
  lemma SplitHead(s: string, sep: char, maxsplit: nat, m: string)
    requires maxsplit > 0 && sep !in m
    ensures Split(s, sep, maxsplit)[0] == m <==> s == m || (|s| > |m| && s[..|m| + 1] == m + [sep])
  {
    SplitHeadShape(s, sep, maxsplit);
    if s == m {
      SplitWhole(s, sep, maxsplit);
    } else if |s| > |m| && s[..|m| + 1] == m + [sep] {
      assert s == m + [sep] + s[|m| + 1..];
      SplitUnfold(m, sep, s[|m| + 1..], maxsplit);
    }
  }

  /** Python truthiness of an optional string: present and non-empty. */
  predicate Truthy(v: Option<string>)
  {
    v.Some? && v.value != ""
  }

  /** Python's `a or b` on optional strings: `a` when truthy, `b` otherwise. */
  function Or(a: Option<string>, b: Option<string>): (r: Option<string>)
    ensures Truthy(r) <==> Truthy(a) || Truthy(b)
    ensures Truthy(a) ==> r == a
  {
    if Truthy(a) then a else b
  }
}
