// The canonical form of a parsed language tag (section 4.5 of RFC 5646) and of the
// Unicode locale extension `-u-` (section 2.1.1 of RFC 6067): the string is built
// step by step as the source builds it, and each step is proved to produce the
// value given by a specification function.
//
// The subtag registry is not part of this model: its lookups are the function fields
// of a `Registry` value passed in.

module LanguageTagCanonical {
  import opened Wrappers
  import L = LanguageTags

  // ---------------------------------------------------------------------------
  // Subtags, joining and weights
  // ---------------------------------------------------------------------------

  /** indexOf(s, '-', from), or the length of `s` when no `-` is at or after `from`. */
  function IndexOfDash(s: string, from: nat): (i: nat)
    ensures i <= |s| && (from <= |s| ==> from <= i)
    ensures i < |s| ==> s[i] == '-'
    decreases |s| - from
  {
    if from >= |s| then |s| else if s[from] == '-' then from else IndexOfDash(s, from + 1)
  }

  /** No separator lies between `from` and the one indexOf finds. */
  lemma {:induction false} IndexOfDashFirst(s: string, from: nat)
    ensures forall k :: from <= k < IndexOfDash(s, from) ==> s[k] != '-'
    decreases |s| - from
  {
    if from < |s| && s[from] != '-' {
      IndexOfDashFirst(s, from + 1);
    }
  }

  /** The pieces of `s` between separators, from position `start` on. */
  function SubtagsFrom(s: string, start: nat): (r: seq<string>)
    ensures start <= |s| ==> |r| > 0 && r[0] == s[start..IndexOfDash(s, start)]
    ensures start > |s| ==> r == []
    decreases |s| + 1 - start
  {
    if start > |s| then []
    else
      var i := IndexOfDash(s, start);
      [s[start..i]] + SubtagsFrom(s, i + 1)
  }

  function Subtags(s: string): seq<string>
  {
    SubtagsFrom(s, 0)
  }

  /** The first piece from `start`, then the pieces after its separator. */
  lemma SubtagsFromStep(s: string, start: nat)
    requires start <= |s|
    ensures SubtagsFrom(s, start) == [s[start..IndexOfDash(s, start)]] + SubtagsFrom(s, IndexOfDash(s, start) + 1)
  {
  }

  /** The strings joined by `-`. */
  function Join(xs: seq<string>): string
  {
    if |xs| == 0 then "" else if |xs| == 1 then xs[0] else xs[0] + "-" + Join(xs[1..])
  }

  /** Each string followed by `-`, as appendSorted writes them. */
  function Dashed(xs: seq<string>): (r: string)
    ensures |r| == Weight(xs)
  {
    if |xs| == 0 then "" else xs[0] + "-" + Dashed(xs[1..])
  }

  /** The characters the strings take up, one separator each. */
  function Weight(xs: seq<string>): nat
  {
    if |xs| == 0 then 0 else |xs[0]| + 1 + Weight(xs[1..])
  }

  lemma {:induction false} WeightAppend(a: seq<string>, b: seq<string>)
    ensures Weight(a + b) == Weight(a) + Weight(b)
    decreases |a|
  {
    if |a| > 0 {
      assert (a + b)[1..] == a[1..] + b;
      WeightAppend(a[1..], b);
    } else {
      assert a + b == b;
    }
  }

  lemma {:induction false} DashedAppend(a: seq<string>, b: seq<string>)
    ensures Dashed(a + b) == Dashed(a) + Dashed(b)
    decreases |a|
  {
    if |a| > 0 {
      assert (a + b)[1..] == a[1..] + b;
      DashedAppend(a[1..], b);
    } else {
      assert a + b == b;
    }
  }

  /** Writing `x-` for each string is the joined strings and one trailing separator. */
  lemma {:induction false} DashedJoin(xs: seq<string>)
    requires |xs| > 0
    ensures Dashed(xs) == Join(xs) + "-"
    decreases |xs|
  {
    if |xs| > 1 {
      DashedJoin(xs[1..]);
    }
  }

  lemma {:induction false} JoinAppend(a: seq<string>, b: seq<string>)
    requires |a| > 0 && |b| > 0
    ensures Join(a + b) == Join(a) + "-" + Join(b)
    decreases |a|
  {
    if |a| > 1 {
      assert (a + b)[1..] == a[1..] + b;
      JoinAppend(a[1..], b);
    } else {
      assert (a + b)[1..] == b;
    }
  }

  /** The subtags from `start` take up the rest of the string and one separator more. */
  lemma {:induction false} SubtagsWeight(s: string, start: nat)
    requires start <= |s| + 1
    ensures Weight(SubtagsFrom(s, start)) == |s| + 1 - start
    decreases |s| + 1 - start
  {
    if start <= |s| {
      SubtagsWeight(s, IndexOfDash(s, start) + 1);
    }
  }

  /** Splitting at the separators and joining again gives the string back. */
  lemma {:induction false} SubtagsJoin(s: string, start: nat)
    requires start <= |s|
    ensures Join(SubtagsFrom(s, start)) == s[start..]
    decreases |s| + 1 - start
  {
    var i := IndexOfDash(s, start);
    var rest := SubtagsFrom(s, i + 1);
    SubtagsFromStep(s, start);
    if i < |s| {
      SubtagsJoin(s, i + 1);
      JoinStep(s, start, i, rest);
    } else {
      assert rest == [];
    }
  }

  /** The piece before a `-`, joined to the pieces after it that give the rest back. */
  lemma JoinStep(s: string, start: nat, i: nat, rest: seq<string>)
    requires start <= i < |s| && s[i] == '-' && |rest| > 0 && Join(rest) == s[i + 1..]
    ensures Join([s[start..i]] + rest) == s[start..]
  {
    JoinCons(s[start..i], rest);
    SplitTail(s, start, i);
  }

  lemma JoinCons(x: string, rest: seq<string>)
    requires |rest| > 0
    ensures Join([x] + rest) == x + "-" + Join(rest)
  {
    assert ([x] + rest)[1..] == rest;
  }

  /** A `-` at `b` splits the rest of `s` from `a` in two. */
  lemma SplitTail(s: string, a: nat, b: nat)
    requires a <= b < |s| && s[b] == '-'
    ensures s[a..] == s[a..b] + "-" + s[b + 1..]
  {
  }

  /** No subtag holds a separator. */
  lemma {:induction false} SubtagsNoDash(s: string, start: nat)
    ensures forall t :: t in SubtagsFrom(s, start) ==> '-' !in t
    decreases |s| + 1 - start
  {
    if start <= |s| {
      var i := IndexOfDash(s, start);
      IndexOfDashFirst(s, start);
      assert '-' !in s[start..i] by {
        forall k | 0 <= k < i - start ensures s[start..i][k] != '-' {
          assert s[start..i][k] == s[start + k];
        }
      }
      SubtagsNoDash(s, i + 1);
    }
  }

  // ---------------------------------------------------------------------------
  // Sorting strings
  // ---------------------------------------------------------------------------

  /** String.compareTo order on these strings: lexicographic by character code. */
  predicate StrLe(a: string, b: string)
  {
    |a| == 0 || (|b| > 0 && (a[0] < b[0] || (a[0] == b[0] && StrLe(a[1..], b[1..]))))
  }

  lemma {:induction false} StrLeTotal(a: string, b: string)
    ensures StrLe(a, b) || StrLe(b, a)
    decreases |a|
  {
    if |a| > 0 && |b| > 0 && a[0] == b[0] {
      StrLeTotal(a[1..], b[1..]);
    }
  }

  predicate Sorted(xs: seq<string>)
  {
    forall i :: 0 < i < |xs| ==> StrLe(xs[i - 1], xs[i])
  }

  function Insert(x: string, ys: seq<string>): (r: seq<string>)
    ensures |r| == |ys| + 1 && Weight(r) == |x| + 1 + Weight(ys)
  {
    if ys == [] then [x]
    else if StrLe(x, ys[0]) then [x] + ys
    else [ys[0]] + Insert(x, ys[1..])
  }

  /** Arrays.sort on the strings (an insertion sort stands in for its algorithm). */
  function SortStrings(xs: seq<string>): (r: seq<string>)
    ensures |r| == |xs| && Weight(r) == Weight(xs)
  {
    if xs == [] then [] else Insert(xs[0], SortStrings(xs[1..]))
  }

  /** Inserting keeps the strings and adds `x`. */
  lemma {:induction false} InsertPermutes(x: string, ys: seq<string>)
    ensures multiset(Insert(x, ys)) == multiset(ys) + multiset{x}
    decreases |ys|
  {
    if ys != [] && !StrLe(x, ys[0]) {
      InsertPermutes(x, ys[1..]);
      assert ys == [ys[0]] + ys[1..];
    }
  }

  /** Inserting puts `x` or the old head first, and keeps the order. */
  lemma {:induction false} InsertSorted(x: string, ys: seq<string>)
    ensures var r := Insert(x, ys);
            (r[0] == x || (|ys| > 0 && r[0] == ys[0])) && (Sorted(ys) ==> Sorted(r))
    decreases |ys|
  {
    if ys != [] && !StrLe(x, ys[0]) {
      StrLeTotal(x, ys[0]);
      var tail := Insert(x, ys[1..]);
      InsertSorted(x, ys[1..]);
      if Sorted(ys) {
        assert Sorted(ys[1..]) by {
          forall i | 0 < i < |ys[1..]| ensures StrLe(ys[1..][i - 1], ys[1..][i]) {
            assert ys[1..][i - 1] == ys[i] && ys[1..][i] == ys[i + 1];
          }
        }
        assert StrLe(ys[0], tail[0]) by {
          if tail[0] != x { assert tail[0] == ys[1]; }
        }
        var r := [ys[0]] + tail;
        forall i | 0 < i < |r| ensures StrLe(r[i - 1], r[i]) {
          if i > 1 { assert r[i - 1] == tail[i - 2] && r[i] == tail[i - 1]; }
        }
      }
    }
  }

  /** The sorted strings are in ascending order and are the same strings. */
  lemma {:induction false} SortStringsSorted(xs: seq<string>)
    ensures Sorted(SortStrings(xs)) && multiset(SortStrings(xs)) == multiset(xs)
    decreases |xs|
  {
    if xs != [] {
      SortStringsSorted(xs[1..]);
      InsertSorted(xs[0], SortStrings(xs[1..]));
      InsertPermutes(xs[0], SortStrings(xs[1..]));
      assert xs == [xs[0]] + xs[1..];
    }
  }

  // ---------------------------------------------------------------------------
  // The Unicode locale extension
  // ---------------------------------------------------------------------------

  /** The number of leading subtags longer than two characters: the attributes. */
  function LongPrefix(subs: seq<string>): (n: nat)
    ensures n <= |subs|
    ensures forall j :: 0 <= j < n ==> |subs[j]| > 2
    ensures n < |subs| ==> |subs[n]| <= 2
  {
    if subs == [] || |subs[0]| <= 2 then 0 else 1 + LongPrefix(subs[1..])
  }

  /**
   * The keyword groups: a key of at most two characters with the longer subtags that
   * follow it, joined by `-`. `cur` is the group under way.
   */
  function KeywordGroups(cur: string, rest: seq<string>): (r: seq<string>)
    ensures |r| > 0 && Weight(r) == |cur| + 1 + Weight(rest)
    decreases |rest|
  {
    if rest == [] then [cur]
    else if |rest[0]| <= 2 then [cur] + KeywordGroups(rest[0], rest[1..])
    else KeywordGroups(cur + "-" + rest[0], rest[1..])
  }

  function Attributes(ext: string): seq<string>
  {
    var subs := Subtags(ext);
    subs[..LongPrefix(subs)]
  }

  function Keywords(ext: string): seq<string>
  {
    var subs := Subtags(ext);
    var n := LongPrefix(subs);
    if n < |subs| then KeywordGroups(subs[n], subs[n + 1..]) else []
  }

  /** Extension values as the parser stores them: no subtag shorter than two characters. */
  predicate UnicodeWellFormed(ext: string)
  {
    var subs := Subtags(ext);
    forall j :: 0 <= j < |subs| ==> |subs[j]| >= 2
  }

  /**
   * The canonical `-u-` value: the attributes in ascending order, then the keyword
   * groups in ascending order, joined by `-`. It is as long as the value it reorders.
   */
  function CanonicalUnicode(ext: string): (r: string)
    ensures |r| == |ext|
  {
    var all := SortStrings(Attributes(ext)) + SortStrings(Keywords(ext));
    GroupsWeight(ext);
    DashedJoin(all);
    Join(all)
  }

  /** The sorted attributes and keyword groups take up the value and one separator more. */
  lemma GroupsWeight(ext: string)
    ensures Weight(SortStrings(Attributes(ext)) + SortStrings(Keywords(ext))) == |ext| + 1
  {
    var subs := Subtags(ext);
    var n := LongPrefix(subs);
    SubtagsWeight(ext, 0);
    assert subs == subs[..n] + subs[n..];
    WeightAppend(subs[..n], subs[n..]);
    WeightAppend(SortStrings(Attributes(ext)), SortStrings(Keywords(ext)));
  }

  /** The keyword groups joined are the subtags they were made of, joined. */
  lemma {:induction false} KeywordGroupsJoin(cur: string, rest: seq<string>)
    ensures Join(KeywordGroups(cur, rest)) == Join([cur] + rest)
    decreases |rest|
  {
    if rest != [] {
      if |rest[0]| <= 2 {
        KeywordGroupsJoin(rest[0], rest[1..]);
        JoinAppend([cur], KeywordGroups(rest[0], rest[1..]));
        JoinAppend([cur], rest);
        assert [rest[0]] + rest[1..] == rest;
      } else {
        KeywordGroupsJoin(cur + "-" + rest[0], rest[1..]);
        if |rest| > 1 {
          JoinAppend([cur + "-" + rest[0]], rest[1..]);
          JoinAppend([cur], rest);
          assert rest == [rest[0]] + rest[1..];
          JoinAppend([rest[0]], rest[1..]);
        }
      }
    }
  }

  /**
   * The attributes followed by the keyword groups are the whole value again, so the
   * canonical value is a reordering of the value's own groups.
   */
  lemma UnicodeGroupsPartition(ext: string)
    ensures Join(Attributes(ext) + Keywords(ext)) == ext
  {
    var subs := Subtags(ext);
    var n := LongPrefix(subs);
    SubtagsJoin(ext, 0);
    assert Join(subs) == ext by { assert ext[0..] == ext; }
    if n < |subs| {
      KeywordGroupsJoin(subs[n], subs[n + 1..]);
      assert [subs[n]] + subs[n + 1..] == subs[n..];
      JoinRegrouped(subs, n, Keywords(ext));
    } else {
      assert Attributes(ext) + Keywords(ext) == subs;
    }
  }

  /** The strings before `n` followed by groups that join to the strings from `n` on. */
  lemma JoinRegrouped(xs: seq<string>, n: nat, groups: seq<string>)
    requires n < |xs| && |groups| > 0 && Join(groups) == Join(xs[n..])
    ensures Join(xs[..n] + groups) == Join(xs)
  {
    if n > 0 {
      JoinAppend(xs[..n], groups);
      JoinAppend(xs[..n], xs[n..]);
      assert xs[..n] + xs[n..] == xs;
    } else {
      assert xs[..n] + groups == groups;
      assert xs[n..] == xs;
    }
  }

  /** Attributes are single subtags longer than two characters. */
  lemma AttributesShape(ext: string)
    ensures forall a :: a in Attributes(ext) ==> |a| > 2 && '-' !in a
  {
    SubtagsNoDash(ext, 0);
  }

  /**
   * canonicalizeUnicodeExtension: scans the subtags with indexOf, collects the
   * attributes and then the keyword groups, and writes each list sorted, every entry
   * followed by `-`; the trailing separator is cut by setting the length back to that
   * of the value.
   */
  method CanonicalizeUnicodeExtension(ext: string) returns (r: string)
    requires UnicodeWellFormed(ext)
    ensures r == CanonicalUnicode(ext)
  {
    var sb := "";
    var start: nat := 0;
    var index := IndexOfDash(ext, start);
    if index - start > 2 {
      var attributes;
      attributes, start, index := ScanAttributes(ext, index);
      sb := AppendSorted(sb, attributes);
    } else {
      NoAttributes(ext);
    }
    assert sb == Dashed(SortStrings(Attributes(ext)));
    if index - start == 2 {
      ghost var subs := Subtags(ext);
      ghost var n := LongPrefix(subs);
      KeywordsStart(ext, start, index);
      var keywords := ScanKeywords(ext, start, index, subs[n], subs[n + 1..]);
      sb := AppendSorted(sb, keywords);
    } else {
      NoKeywords(ext, start, index);
      assert sb + "" == sb;
    }
    WrittenGroups(ext, sb);
    r := sb[..|ext|];
  }

  /** A first subtag of at most two characters: no attributes, and the scan is at it. */
  lemma NoAttributes(ext: string)
    requires IndexOfDash(ext, 0) <= 2
    ensures Attributes(ext) == [] && Dashed(SortStrings(Attributes(ext))) == ""
    ensures Cursor(ext, 0, IndexOfDash(ext, 0), LongPrefix(Subtags(ext)))
  {
    SubtagAt(ext, 0, Subtags(ext), 0);
    LongPrefixAt(Subtags(ext), 0);
  }

  /** The scan at a key after the attributes: what the keyword loop starts from. */
  lemma KeywordsStart(ext: string, start: nat, index: nat)
    requires UnicodeWellFormed(ext)
    requires Cursor(ext, start, index, LongPrefix(Subtags(ext))) && index - start == 2
    ensures var subs := Subtags(ext);
            var n := LongPrefix(subs);
            n < |subs| && start <= index <= |ext| && subs[n] == ext[start..index] &&
            KeyLengths(subs[n + 1..]) && SubtagsAfter(ext, index, subs[n + 1..]) &&
            Keywords(ext) == KeywordGroups(subs[n], subs[n + 1..])
  {
    var subs := Subtags(ext);
    var n := LongPrefix(subs);
    SubtagAt(ext, start, subs, n);
    KeyLengthsAfter(ext, n);
    SubtagsAfterFrom(ext, index);
  }

  /**
   * Where the scan stands: `start` and `index` bound the `k`-th subtag, or `start` is
   * past the end and `k` counts all of them.
   */
  ghost predicate Cursor(ext: string, start: nat, index: nat, k: nat)
  {
    var subs := Subtags(ext);
    start <= |ext| + 1 && index == IndexOfDash(ext, start) && k <= |subs| &&
    SubtagsFrom(ext, start) == subs[k..]
  }

  /** One step of the scan: the subtag at `start` is the `k`-th, and the rest follow it. */
  lemma SubtagAt(ext: string, start: nat, subs: seq<string>, k: nat)
    requires start <= |ext| && k <= |subs| && SubtagsFrom(ext, start) == subs[k..]
    ensures k < |subs| && subs[k] == ext[start..IndexOfDash(ext, start)]
    ensures SubtagsFrom(ext, IndexOfDash(ext, start) + 1) == subs[k + 1..]
    ensures subs[..k + 1] == subs[..k] + [subs[k]]
  {
    assert subs[k..][0] == subs[k];
    assert subs[k..][1..] == subs[k + 1..];
  }

  /** A scan past the end has seen every subtag. */
  lemma SubtagsDone(ext: string, start: nat, subs: seq<string>, k: nat)
    requires start > |ext| && k <= |subs| && SubtagsFrom(ext, start) == subs[k..]
    ensures k == |subs|
  {
  }

  /** The attribute count is the first position holding a short subtag. */
  lemma LongPrefixAt(subs: seq<string>, k: nat)
    requires k <= |subs| && (forall j :: 0 <= j < k ==> |subs[j]| > 2)
    requires k < |subs| ==> |subs[k]| <= 2
    ensures LongPrefix(subs) == k
  {
  }

  /** The attribute loop: takes subtags while they are longer than two characters. */
  method ScanAttributes(ext: string, index0: nat) returns (attributes: seq<string>, start: nat, index: nat)
    requires index0 == IndexOfDash(ext, 0) && index0 > 2
    ensures attributes == Attributes(ext)
    ensures Cursor(ext, start, index, |attributes|)
  {
    ghost var subs := Subtags(ext);
    ghost var k: nat := 0;
    start, index := 0, index0;
    attributes := [];
    while true
      invariant start <= |ext| && k <= |subs| && index == IndexOfDash(ext, start)
      invariant index - start > 2
      invariant SubtagsFrom(ext, start) == subs[k..]
      invariant attributes == subs[..k]
      invariant forall j :: 0 <= j < k ==> |subs[j]| > 2
      decreases |ext| + 1 - start
    {
      AttributeTaken(ext, start, index, subs, k, attributes);
      attributes := attributes + [ext[start..index]];
      start := index + 1;
      index := IndexOfDash(ext, start);
      k := k + 1;
      if index - start <= 2 {
        AttributesEnd(ext, start, subs, k, attributes);
        break;
      }
    }
  }

  /** The attribute loop takes the subtag at `start`, which is the `k`-th. */
  lemma AttributeTaken(ext: string, start: nat, index: nat, subs: seq<string>, k: nat, attributes: seq<string>)
    requires start <= |ext| && k <= |subs| && index == IndexOfDash(ext, start)
    requires SubtagsFrom(ext, start) == subs[k..] && attributes == subs[..k]
    ensures k < |subs| && attributes + [ext[start..index]] == subs[..k + 1]
    ensures SubtagsFrom(ext, index + 1) == subs[k + 1..]
  {
    SubtagAt(ext, start, subs, k);
  }

  /** A short subtag at `start`, or the end of the value: the attributes are complete. */
  lemma AttributesEnd(ext: string, start: nat, subs: seq<string>, k: nat, attributes: seq<string>)
    requires start <= |ext| + 1 && IndexOfDash(ext, start) - start <= 2
    requires subs == Subtags(ext) && k <= |subs| && SubtagsFrom(ext, start) == subs[k..]
    requires attributes == subs[..k] && forall j :: 0 <= j < k ==> |subs[j]| > 2
    ensures attributes == Attributes(ext) && Cursor(ext, start, IndexOfDash(ext, start), |attributes|)
  {
    if start <= |ext| {
      SubtagAt(ext, start, subs, k);
    } else {
      SubtagsDone(ext, start, subs, k);
    }
    LongPrefixAt(subs, k);
  }

  /** A `-` at `b` splits the slice from `a` to `c` in two. */
  lemma SplitAtDash(s: string, a: nat, b: nat, c: nat)
    requires a <= b < c <= |s| && s[b] == '-'
    ensures s[a..c] == s[a..b] + "-" + s[b + 1..c]
  {
  }

  /** Subtags of at least two characters, as the parser stores extension values. */
  predicate KeyLengths(xs: seq<string>)
  {
    forall j :: 0 <= j < |xs| ==> |xs[j]| >= 2
  }

  lemma KeyLengthsAfter(ext: string, n: nat)
    requires UnicodeWellFormed(ext) && n < |Subtags(ext)|
    ensures KeyLengths(Subtags(ext)[n + 1..])
  {
    var subs := Subtags(ext);
    var rest := subs[n + 1..];
    forall j | 0 <= j < |rest| ensures |rest[j]| >= 2 {
      assert rest[j] == subs[n + 1 + j];
    }
  }

  /**
   * `rest` are the subtags after position `p`, which is a separator or the end of the
   * value.
   */
  predicate SubtagsAfter(ext: string, p: nat, rest: seq<string>)
    decreases |ext| - p
  {
    if p >= |ext| then rest == []
    else
      var next := IndexOfDash(ext, p + 1);
      |rest| > 0 && rest[0] == ext[p + 1..next] && SubtagsAfter(ext, next, rest[1..])
  }

  lemma {:induction false} SubtagsAfterFrom(ext: string, p: nat)
    requires p <= |ext|
    ensures SubtagsAfter(ext, p, SubtagsFrom(ext, p + 1))
    decreases |ext| - p
  {
    if p < |ext| {
      SubtagsAfterFrom(ext, IndexOfDash(ext, p + 1));
    }
  }

  /**
   * One turn of the keyword loop: at the end of the value the group under way is the
   * last; otherwise the next subtag either closes it and opens another, or joins it.
   */
  lemma KeywordTurn(ext: string, keystart: nat, index: nat, rest: seq<string>)
    requires KeyLengths(rest)
    requires keystart <= index <= |ext| && (index < |ext| ==> ext[index] == '-')
    requires SubtagsAfter(ext, index, rest)
    ensures var start := index + 1;
            var next := IndexOfDash(ext, start);
            var groups := KeywordGroups(ext[keystart..index], rest);
            if index == |ext| then
              next - start < 2 && groups == [ext[keystart..start - 1]]
            else
              |rest| > 0 && next - start >= 2 && KeyLengths(rest[1..]) &&
              SubtagsAfter(ext, next, rest[1..]) &&
              groups ==
                (if next - start == 2
                 then [ext[keystart..start - 1]] + KeywordGroups(ext[start..next], rest[1..])
                 else KeywordGroups(ext[keystart..next], rest[1..]))
  {
    var start := index + 1;
    var next := IndexOfDash(ext, start);
    if index < |ext| {
      assert |rest[0]| >= 2;
      SplitAtDash(ext, keystart, index, next);
    }
  }

  /**
   * The keyword loop: a subtag of at most two characters closes the group under way
   * and, when it is a key, opens the next one. `key` is the first key and `rest` the
   * subtags after it.
   */
  method ScanKeywords(ext: string, start0: nat, index0: nat, ghost key: string, ghost rest0: seq<string>)
    returns (keywords: seq<string>)
    requires KeyLengths(rest0)
    requires start0 <= index0 <= |ext| && index0 == IndexOfDash(ext, start0)
    requires key == ext[start0..index0] && SubtagsAfter(ext, index0, rest0)
    ensures keywords == KeywordGroups(key, rest0)
  {
    var start, index := start0, index0;
    keywords := [];
    var keystart: nat := start;
    ghost var result := KeywordsLoop(ext, keystart, index, keywords);
    KeywordsLoopGroups(ext, keystart, index, rest0, keywords);
    while true
      invariant keystart <= start <= index <= |ext| && index == IndexOfDash(ext, start)
      invariant KeywordsLoop(ext, keystart, index, keywords) == result
      decreases |ext| + 1 - start
    {
      KeywordsLoopStep(ext, keystart, index, keywords);
      start := index + 1;
      index := IndexOfDash(ext, start);
      if index - start <= 2 {
        keywords := keywords + [ext[keystart..start - 1]];
        if index - start == 2 {
          keystart := start;
        } else {
          assert keywords == result;
          break;
        }
      }
    }
  }

  /**
   * What the keyword loop computes from a group starting at `keystart` whose last
   * subtag ends at `index`, after the groups in `keywords`.
   */
  ghost function KeywordsLoop(ext: string, keystart: nat, index: nat, keywords: seq<string>): seq<string>
    requires keystart <= index <= |ext|
    decreases |ext| - index
  {
    var start := index + 1;
    var next := IndexOfDash(ext, start);
    if next - start <= 2 then
      var closed := keywords + [ext[keystart..index]];
      if next - start == 2 then KeywordsLoop(ext, start, next, closed) else closed
    else KeywordsLoop(ext, keystart, next, keywords)
  }

  lemma KeywordsLoopStep(ext: string, keystart: nat, index: nat, keywords: seq<string>)
    requires keystart <= index <= |ext|
    ensures var start := index + 1;
            var next := IndexOfDash(ext, start);
            KeywordsLoop(ext, keystart, index, keywords) ==
            if next - start <= 2 then
              if next - start == 2 then KeywordsLoop(ext, start, next, keywords + [ext[keystart..index]])
              else keywords + [ext[keystart..index]]
            else KeywordsLoop(ext, keystart, next, keywords)
  {
  }

  /** The keyword loop yields the groups of the subtags after `index`, after `keywords`. */
  lemma {:induction false} KeywordsLoopGroups(ext: string, keystart: nat, index: nat, rest: seq<string>,
                                             keywords: seq<string>)
    requires keystart <= index <= |ext| && (index < |ext| ==> ext[index] == '-')
    requires KeyLengths(rest) && SubtagsAfter(ext, index, rest)
    ensures KeywordsLoop(ext, keystart, index, keywords) == keywords + KeywordGroups(ext[keystart..index], rest)
    decreases |ext| - index
  {
    KeywordTurn(ext, keystart, index, rest);
    KeywordsLoopStep(ext, keystart, index, keywords);
    var start := index + 1;
    var next := IndexOfDash(ext, start);
    if index < |ext| {
      if next - start == 2 {
        var closed := keywords + [ext[keystart..index]];
        KeywordsLoopGroups(ext, start, next, rest[1..], closed);
        GroupsAssoc(keywords, [ext[keystart..index]], KeywordGroups(ext[start..next], rest[1..]));
      } else {
        KeywordsLoopGroups(ext, keystart, next, rest[1..], keywords);
      }
    }
  }

  lemma GroupsAssoc(a: seq<string>, b: seq<string>, c: seq<string>)
    ensures (a + b) + c == a + (b + c)
  {
  }

  /** Without a key after the attributes, on well-formed values, there are no keywords. */
  lemma NoKeywords(ext: string, start: nat, index: nat)
    requires UnicodeWellFormed(ext)
    requires Cursor(ext, start, index, LongPrefix(Subtags(ext))) && index - start != 2
    ensures Keywords(ext) == [] && Dashed(SortStrings(Keywords(ext))) == ""
  {
  }

  /** What the two appendSorted calls write is the canonical value and one separator. */
  lemma WrittenGroups(ext: string, sb: string)
    requires sb == Dashed(SortStrings(Attributes(ext))) + Dashed(SortStrings(Keywords(ext)))
    ensures sb == CanonicalUnicode(ext) + "-" && sb[..|ext|] == CanonicalUnicode(ext)
  {
    var all := SortStrings(Attributes(ext)) + SortStrings(Keywords(ext));
    DashedAppend(SortStrings(Attributes(ext)), SortStrings(Keywords(ext)));
    var subs := Subtags(ext);
    assert |subs| > 0;
    DashedJoin(all);
    assert sb == CanonicalUnicode(ext) + "-";
    assert sb[..|ext|] == CanonicalUnicode(ext);
  }

  /** appendSorted: the list sorted, each entry followed by `-`, after what `sb` holds. */
  method AppendSorted(sb: string, list: seq<string>) returns (r: string)
    ensures r == sb + Dashed(SortStrings(list))
  {
    var ks := SortStrings(list);
    r := sb;
    var i := 0;
    while i < |ks|
      invariant 0 <= i <= |ks|
      invariant r + Dashed(ks[i..]) == sb + Dashed(ks)
    {
      assert Dashed(ks[i..]) == ks[i] + "-" + Dashed(ks[i + 1..]);
      r := r + ks[i] + "-";
      i := i + 1;
    }
  }
}
