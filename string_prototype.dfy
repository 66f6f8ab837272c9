/**
 * The index arithmetic of the String.prototype methods that do not involve
 * regular expressions (section 21.1.3 of ECMA-262): clamping and slicing,
 * searching, splitting on a string separator, repeat and first-occurrence
 * replace with a string search value.
 *
 * Positions are the results of ToInteger and are modelled as unbounded
 * integers; the conversions themselves (ToString, ToInteger, ToUint32 of a
 * non-integral number) happen before these functions are reached.
 */
module StringPrototype {
  import opened Wrappers

  /** The errors the modelled methods throw. */
  datatype ErrorKind = RangeError

  function Min(a: int, b: int): int { if a <= b then a else b }
  function Max(a: int, b: int): int { if a >= b then a else b }

  /** `Math.min(Math.max(pos, 0), len)`: a position clamped into [0, len]. */
  function Clamp(pos: int, len: nat): (r: nat)
    ensures r <= len
    ensures 0 <= pos <= len ==> r == pos
    ensures pos < 0 ==> r == 0
    ensures pos > len ==> r == len
  {
    Min(Max(pos, 0), len)
  }

  /** `t` occurs in `s` starting at index `k`. */
  predicate OccursAt(s: string, t: string, k: int)
  {
    0 <= k && k + |t| <= |s| && s[k..k + |t|] == t
  }

  // ---------------------------------------------------------------------
  // Searching

  /**
   * Java's `s.indexOf(t, from)` for a start already inside the string: the
   * first index at or after `from` where `t` occurs, or -1.
   */
  function JavaIndexOf(s: string, t: string, from: nat): (r: int)
    requires from <= |s|
    ensures r == -1 || (from <= r && OccursAt(s, t, r))
    decreases |s| - from
  {
    if from + |t| > |s| then -1
    else if MatchesFrom(s, t, from, 0) then MatchesAt(s, t, from); from
    else if from == |s| then -1
    else JavaIndexOf(s, t, from + 1)
  }

  /** `t` matches `s` at `k`, compared character by character from the `i`-th on. */
  predicate MatchesFrom(s: string, t: string, k: nat, i: nat)
    requires k + |t| <= |s| && i <= |t|
    decreases |t| - i
  {
    i == |t| || (s[k + i] == t[i] && MatchesFrom(s, t, k, i + 1))
  }

  lemma {:induction false} MatchesFromAll(s: string, t: string, k: nat, i: nat)
    requires k + |t| <= |s| && i <= |t|
    ensures MatchesFrom(s, t, k, i) <==> forall j :: i <= j < |t| ==> s[k + j] == t[j]
    decreases |t| - i
  {
    if i < |t| {
      MatchesFromAll(s, t, k, i + 1);
    }
  }

  /** The character comparison finds exactly the occurrences. */
  lemma MatchesAt(s: string, t: string, k: nat)
    requires k + |t| <= |s|
    ensures MatchesFrom(s, t, k, 0) <==> OccursAt(s, t, k)
  {
    MatchesFromAll(s, t, k, 0);
    if MatchesFrom(s, t, k, 0) {
      assert s[k..k + |t|] == t;
    }
  }

  /** The index Java's indexOf finds is the first occurrence, and -1 means there is none. */
  lemma {:induction false} JavaIndexOfIsFirst(s: string, t: string, from: nat)
    requires from <= |s|
    ensures var r := JavaIndexOf(s, t, from);
      (r != -1 ==> forall k :: from <= k < r ==> !OccursAt(s, t, k))
      && (r == -1 <==> forall k :: from <= k ==> !OccursAt(s, t, k))
    decreases |s| - from
  {
    if from + |t| > |s| {
    } else if MatchesFrom(s, t, from, 0) {
    } else {
      MatchesAt(s, t, from);
      if from < |s| {
        JavaIndexOfIsFirst(s, t, from + 1);
      }
    }
  }

  /** 15.5.4.7 String.prototype.indexOf: the search starts at the clamped position. */
  function IndexOf(s: string, searchString: string, position: int): (r: int)
    ensures var start := Clamp(position, |s|);
      (r == -1 <==> forall k :: start <= k ==> !OccursAt(s, searchString, k))
      && (r != -1 ==> start <= r && OccursAt(s, searchString, r)
                      && forall k :: start <= k < r ==> !OccursAt(s, searchString, k))
  {
    JavaIndexOfIsFirst(s, searchString, Clamp(position, |s|));
    JavaIndexOf(s, searchString, Clamp(position, |s|))
  }

  /** 15.5.4.24 String.prototype.contains: is there an occurrence at or after the clamped start? */
  function Contains(s: string, searchString: string, position: int): (r: bool)
    ensures r <==> exists k :: Clamp(position, |s|) <= k && OccursAt(s, searchString, k)
  {
    IndexOf(s, searchString, position) != -1
  }

  /** 15.5.4.22 String.prototype.startsWith. */
  function StartsWith(s: string, searchString: string, position: int): (r: bool)
    ensures r <==> OccursAt(s, searchString, Clamp(position, |s|))
    ensures |searchString| + Clamp(position, |s|) > |s| ==> !r
  {
    var start := Clamp(position, |s|);
    if |searchString| + start > |s| then false
    else s[start..start + |searchString|] == searchString
  }

  /**
   * 15.5.4.23 String.prototype.endsWith as written: after computing
   * `start = end - searchLength` the code tests for an occurrence at `end`
   * instead of at `start`. `endPosition == None` stands for undefined.
   */
  function EndsWithAsWritten(s: string, searchString: string, endPosition: Option<int>): (r: bool)
    ensures var end := Clamp(if endPosition.None? then |s| else endPosition.value, |s|);
      r <==> (end >= |searchString| && OccursAt(s, searchString, end))
  {
    var end := Clamp(if endPosition.None? then |s| else endPosition.value, |s|);
    var start := end - |searchString|;
    if start < 0 then false
    else StartsWith(s, searchString, end)
  }

  /** String.prototype.endsWith as intended: the occurrence must end at `end`. */
  function EndsWith(s: string, searchString: string, endPosition: Option<int>): (r: bool)
    ensures var end := Clamp(if endPosition.None? then |s| else endPosition.value, |s|);
      r <==> OccursAt(s, searchString, end - |searchString|)
  {
    var end := Clamp(if endPosition.None? then |s| else endPosition.value, |s|);
    var start := end - |searchString|;
    if start < 0 then false
    else StartsWith(s, searchString, start)
  }

  /** With no end position, the corrected endsWith is exactly "is a suffix". */
  lemma EndsWithIsSuffix(s: string, t: string)
    ensures EndsWith(s, t, None) <==> (|t| <= |s| && s[|s| - |t|..] == t)
  {
  }

  /** As written, endsWith without an end position rejects every non-empty suffix. */
  lemma {:induction false} EndsWithAsWrittenRejectsSuffixes(s: string, t: string)
    requires |t| > 0
    ensures !EndsWithAsWritten(s, t, None)
  {
    assert !OccursAt(s, t, |s|);
  }

  /** The input that shows the discrepancy: "abc".endsWith("c"). */
  lemma EndsWithCounterexample()
    ensures EndsWith("abc", "c", None)
    ensures !EndsWithAsWritten("abc", "c", None)
  {
    EndsWithIsSuffix("abc", "c");
    EndsWithAsWrittenRejectsSuffixes("abc", "c");
    assert "abc"[2..] == "c";
  }

  // ---------------------------------------------------------------------
  // Extraction

  /** 15.5.4.4 String.prototype.charAt. */
  function CharAt(s: string, position: int): (r: string)
    ensures r == "" <==> (position < 0 || position >= |s|)
    ensures 0 <= position < |s| ==> r == [s[position]]
  {
    if position < 0 || position >= |s| then "" else [s[position]]
  }

  /** A relative position of slice: negative counts from the end; the result lies in [0, len]. */
  function RelativeIndex(p: int, len: nat): (r: nat)
    ensures r <= len
    ensures p < 0 ==> r == Max(len + p, 0)
    ensures p >= 0 ==> r == Min(p, len)
  {
    if p < 0 then Max(len + p, 0) else Min(p, len)
  }

  /** 15.5.4.13 String.prototype.slice. `end == None` stands for undefined. */
  function Slice(s: string, start: int, end: Option<int>): (r: string)
    ensures var from := RelativeIndex(start, |s|);
      var to := RelativeIndex(if end.None? then |s| else end.value, |s|);
      |r| == Max(to - from, 0) && (from <= to ==> r == s[from..to])
  {
    var from := RelativeIndex(start, |s|);
    var to := RelativeIndex(if end.None? then |s| else end.value, |s|);
    var span := Max(to - from, 0);
    s[from..from + span]
  }

  /** 15.5.4.15 String.prototype.substring: clamp both ends, then order them. */
  function Substring(s: string, start: int, end: Option<int>): (r: string)
    ensures var a := Clamp(start, |s|);
      var b := Clamp(if end.None? then |s| else end.value, |s|);
      (a <= b ==> r == s[a..b]) && (b < a ==> r == s[b..a]) &&
      |r| == (if a <= b then b - a else a - b)
    ensures end.Some? && 0 <= start <= end.value <= |s| ==> r == s[start..end.value]
    ensures end.Some? && 0 <= end.value <= start <= |s| ==> r == s[end.value..start]
    ensures end.None? && start <= 0 ==> r == s
  {
    var finalStart := Clamp(start, |s|);
    var finalEnd := Clamp(if end.None? then |s| else end.value, |s|);
    s[Min(finalStart, finalEnd)..Max(finalStart, finalEnd)]
  }

  /** B.2.2.1 String.prototype.substr. `length == None` stands for undefined (+Infinity). */
  function Substr(s: string, start: int, length: Option<int>): (r: string)
    ensures var from := if start < 0 then Max(|s| + start, 0) else start;
      var n := if length.None? then |s| - from else Min(Max(length.value, 0), |s| - from);
      (n <= 0 ==> r == "") && (n > 0 ==> 0 <= from && from + n <= |s| && r == s[from..from + n])
  {
    var intStart := if start < 0 then Max(|s| + start, 0) else start;
    var resultLength := if length.None? then |s| - intStart
                        else Min(Max(length.value, 0), |s| - intStart);
    if resultLength <= 0 then "" else s[intStart..intStart + resultLength]
  }

  /** charAt agrees with a one-character substring at every position, inside or outside the string. */
  lemma CharAtIsSubstring(s: string, p: int)
    ensures CharAt(s, p) == Substring(s, p, Some(p + 1))
  {
    if 0 <= p < |s| {
      assert s[p..p + 1] == [s[p]];
    }
  }

  /** substring does not care about the order of its two positions. */
  lemma SubstringSymmetric(s: string, a: int, b: int)
    ensures Substring(s, a, Some(b)) == Substring(s, b, Some(a))
  {
  }

  /** For ordered non-negative positions, slice and substring agree. */
  lemma SliceAgreesWithSubstring(s: string, a: int, b: int)
    requires 0 <= a <= b
    ensures Slice(s, a, Some(b)) == Substring(s, a, Some(b))
  {
  }

  /** A negative slice start counts from the end: slice(-k) is the last k characters. */
  lemma SliceSuffix(s: string, k: int)
    requires 0 < k <= |s|
    ensures Slice(s, -k, None) == s[|s| - k..]
  {
  }

  /** substr(start, length) agrees with substring(start, start + length) for in-range arguments. */
  lemma SubstrAgreesWithSubstring(s: string, start: int, length: int)
    requires 0 <= start && 0 < length && start + length <= |s|
    ensures Substr(s, start, Some(length)) == Substring(s, start, Some(start + length))
  {
  }

  // ---------------------------------------------------------------------
  // repeat

  /** The count argument of repeat after ToInteger: an integer or an infinity. */
  datatype Integer = Finite(n: int) | PositiveInfinity | NegativeInfinity

  /** Java's `Integer.MAX_VALUE`. */
  const INT_MAX: int := 0x7fff_ffff

  /** `s` concatenated `n` times. */
  function Repeated(s: string, n: nat): (r: string)
  {
    if n == 0 then "" else Repeated(s, n - 1) + s
  }

  lemma {:induction false} RepeatedLength(s: string, n: nat)
    ensures |Repeated(s, n)| == |s| * n
  {
    if n > 0 {
      RepeatedLength(s, n - 1);
    }
  }

  /** Copy k of the repetition holds `s` again: character `|s| * k + j` is `s[j]`. */
  lemma {:induction false} RepeatedAt(s: string, n: nat, k: nat, j: nat)
    requires k < n && j < |s|
    ensures |s| * k + j < |Repeated(s, n)| && Repeated(s, n)[|s| * k + j] == s[j]
  {
    RepeatedLength(s, n - 1);
    assert |s| * n == |s| * (n - 1) + |s|;
    assert |s| * k <= |s| * (n - 1) by {
      LemmaMulMonotone(|s|, k, n - 1);
    }
    if k < n - 1 {
      RepeatedAt(s, n - 1, k, j);
      assert |s| * k + j < |s| * (n - 1) by {
        LemmaMulMonotone(|s|, k + 1, n - 1);
      }
    } else {
      assert |s| * k == |Repeated(s, n - 1)|;
    }
  }

  lemma LemmaMulMonotone(m: nat, a: nat, b: nat)
    requires a <= b
    ensures m * a <= m * b
  {
  }

  /** Repeating a + b times is repeating a times, then b times. */
  lemma {:induction false} RepeatedAdd(s: string, a: nat, b: nat)
    ensures Repeated(s, a + b) == Repeated(s, a) + Repeated(s, b)
  {
    if b > 0 {
      RepeatedAdd(s, a, b - 1);
      assert Repeated(s, a + b) == Repeated(s, a + b - 1) + s;
    }
  }

  /**
   * 15.5.4.21 String.prototype.repeat: "" for 0, RangeError for a negative
   * or infinite count, otherwise `s` appended to a builder in a countdown
   * loop. The loop counter is `(int) n`, which saturates at INT_MAX.
   */
  method Repeat(s: string, count: Integer) returns (r: Result<string, ErrorKind>)
    ensures count == Finite(0) ==> r == Ok("")
    ensures r.Err? <==> (count.PositiveInfinity? || count.NegativeInfinity? || (count.Finite? && count.n < 0))
    ensures count.Finite? && count.n > 0 ==> r == Ok(Repeated(s, Min(count.n, INT_MAX)))
  {
    if count == Finite(0) {
      return Ok("");
    } else if count.NegativeInfinity? || (count.Finite? && count.n < 0) || count.PositiveInfinity? {
      return Err(RangeError);
    }
    var n: nat := Min(count.n, INT_MAX);
    var t := "";
    var c := n;
    while c > 0
      invariant 0 <= c <= n
      invariant t == Repeated(s, n - c)
    {
      t := t + s;
      c := c - 1;
    }
    return Ok(t);
  }

  // ---------------------------------------------------------------------
  // split with a string separator

  /** The characters of `s` from `p` on, as one-character strings: what an empty separator splits into. */
  function CharsFrom(s: string, p: nat): (r: seq<string>)
    requires p <= |s|
    decreases |s| - p
  {
    if p == |s| then [] else [s[p..p + 1]] + CharsFrom(s, p + 1)
  }

  /** `s[p..]` cut at each non-overlapping occurrence of a non-empty `sep`, left to right. */
  function PiecesFrom(s: string, sep: string, p: nat): (r: seq<string>)
    requires sep != "" && p <= |s|
    ensures |r| >= 1
    decreases |s| - p
  {
    var z := JavaIndexOf(s, sep, p);
    if z < 0 then [s[p..]] else [s[p..z]] + PiecesFrom(s, sep, z + |sep|)
  }

  /** The pieces of `s[p..]` that split produces when no limit applies. */
  function RestPieces(s: string, sep: string, p: nat): seq<string>
    requires p <= |s|
  {
    if sep == "" then CharsFrom(s, p) else PiecesFrom(s, sep, p)
  }

  /** The complete list of pieces split produces when no limit applies. */
  function SplitPieces(s: string, sep: string): seq<string>
  {
    RestPieces(s, sep, 0)
  }

  /** The pieces joined with `sep` between consecutive ones. */
  function Join(pieces: seq<string>, sep: string): string
  {
    if pieces == [] then ""
    else if |pieces| == 1 then pieces[0]
    else pieces[0] + sep + Join(pieces[1..], sep)
  }

  function Take<T>(xs: seq<T>, n: nat): (r: seq<T>)
    ensures |r| == Min(|xs|, n) && r == xs[..Min(|xs|, n)]
  {
    if |xs| <= n then xs else xs[..n]
  }

  lemma JoinCons(x: string, rest: seq<string>, sep: string)
    requires rest != []
    ensures Join([x] + rest, sep) == x + sep + Join(rest, sep)
  {
    assert ([x] + rest)[1..] == rest;
  }

  /** Splitting and joining with the same separator gives back the input. */
  lemma SplitJoinRoundTrip(s: string, sep: string)
    ensures Join(SplitPieces(s, sep), sep) == s
  {
    RestJoin(s, sep, 0);
  }

  lemma RestJoin(s: string, sep: string, p: nat)
    requires p <= |s|
    ensures Join(RestPieces(s, sep, p), sep) == s[p..]
  {
    if sep == "" {
      CharsJoin(s, p);
    } else {
      PiecesJoin(s, sep, p);
    }
  }

  lemma {:induction false} CharsJoin(s: string, p: nat)
    requires p <= |s|
    ensures Join(CharsFrom(s, p), "") == s[p..]
    decreases |s| - p
  {
    if p < |s| {
      CharsJoin(s, p + 1);
      if p + 1 == |s| {
        assert CharsFrom(s, p + 1) == [];
        assert s[p..] == s[p..p + 1];
      } else {
        JoinCons(s[p..p + 1], CharsFrom(s, p + 1), "");
        assert s[p..] == s[p..p + 1] + "" + s[p + 1..];
      }
    }
  }

  lemma SliceAround(s: string, p: nat, z: nat, next: nat, sep: string)
    requires p <= z <= next <= |s| && s[z..next] == sep
    ensures s[p..] == s[p..z] + sep + s[next..]
  {
    assert s[p..] == s[p..z] + s[z..next] + s[next..];
  }

  lemma {:induction false} PiecesJoin(s: string, sep: string, p: nat)
    requires sep != "" && p <= |s|
    ensures Join(PiecesFrom(s, sep, p), sep) == s[p..]
    decreases |s| - p
  {
    var z := JavaIndexOf(s, sep, p);
    if z >= 0 {
      var next := z + |sep|;
      var rest := PiecesFrom(s, sep, next);
      PiecesJoin(s, sep, next);
      assert PiecesFrom(s, sep, p) == [s[p..z]] + rest;
      JoinCons(s[p..z], rest, sep);
      SliceAround(s, p, z, next, sep);
    }
  }

  /** No piece produced by a non-empty separator contains that separator. */
  lemma {:induction false} PiecesAvoidSeparator(s: string, sep: string, p: nat, i: nat, k: int)
    requires sep != "" && p <= |s| && i < |PiecesFrom(s, sep, p)|
    ensures !OccursAt(PiecesFrom(s, sep, p)[i], sep, k)
    decreases |s| - p
  {
    var z := JavaIndexOf(s, sep, p);
    JavaIndexOfIsFirst(s, sep, p);
    if z < 0 || i == 0 {
      var end := if z < 0 then |s| else z;
      var piece := PiecesFrom(s, sep, p)[i];
      assert piece == s[p..end];
      if OccursAt(piece, sep, k) {
        SliceOfSlice(s, p, end, k, |sep|);
        assert OccursAt(s, sep, p + k);
        assert false;
      }
    } else {
      PiecesAvoidSeparator(s, sep, z + |sep|, i - 1, k);
    }
  }

  lemma SliceOfSlice(s: string, a: nat, b: nat, k: nat, n: nat)
    requires a <= b <= |s| && k + n <= b - a
    ensures s[a..b][k..k + n] == s[a + k..a + k + n]
  {
    var u, v := s[a..b][k..k + n], s[a + k..a + k + n];
    assert forall j :: 0 <= j < n ==> u[j] == v[j];
  }

  lemma SplitPiecesAvoidSeparator(s: string, sep: string, i: nat, k: int)
    requires sep != "" && i < |SplitPieces(s, sep)|
    ensures !OccursAt(SplitPieces(s, sep)[i], sep, k)
  {
    PiecesAvoidSeparator(s, sep, 0, i, k);
  }

  /** With an empty separator every piece is exactly one character. */
  lemma {:induction false} CharsFromAt(s: string, p: nat, i: nat)
    requires p + i < |s|
    ensures |CharsFrom(s, p)| == |s| - p && CharsFrom(s, p)[i] == [s[p + i]]
    decreases |s| - p
  {
    CharsFromLength(s, p + 1);
    if i > 0 {
      CharsFromAt(s, p + 1, i - 1);
    }
  }

  lemma {:induction false} CharsFromLength(s: string, p: nat)
    requires p <= |s|
    ensures |CharsFrom(s, p)| == |s| - p
    decreases |s| - p
  {
    if p < |s| {
      CharsFromLength(s, p + 1);
    }
  }

  lemma SplitEmptySeparator(s: string, i: nat)
    requires i < |s|
    ensures |SplitPieces(s, "")| == |s| && SplitPieces(s, "")[i] == [s[i]]
  {
    CharsFromAt(s, 0, i);
  }

  /** An empty input splits into [] when it starts with the separator (only ""), else into [s]. */
  lemma SplitEmptyInput(sep: string)
    ensures SplitPieces("", sep) == (if sep == "" then [] else [""])
  {
  }

  /** The ToUint32 of an integral limit; undefined means 2^32 - 1. */
  function SplitLimit(limit: Option<int>): (lim: nat)
    ensures lim < 0x1_0000_0000
    ensures limit.None? ==> lim == 0xFFFF_FFFF
  {
    if limit.None? then 0xFFFF_FFFF else limit.value % 0x1_0000_0000
  }

  /**
   * 15.5.4.14 String.prototype.split with a string (or undefined) separator.
   * `separator == None` and `limit == None` stand for undefined.
   */
  method Split(s: string, separator: Option<string>, limit: Option<int>) returns (a: seq<string>)
    ensures SplitLimit(limit) == 0 ==> a == []
    ensures SplitLimit(limit) != 0 && separator.None? ==> a == [s]
    ensures SplitLimit(limit) != 0 && separator.Some? ==>
      a == Take(SplitPieces(s, separator.value), SplitLimit(limit))
  {
    var lim := SplitLimit(limit);
    a := [];
    if lim == 0 {
      return;
    }
    if separator.None? {
      return [s];
    }
    a := SplitOnString(s, separator.value, lim);
  }

  /** The string-separator case of split: the cutting loop over `p` and `q`. */
  method SplitOnString(s: string, sep: string, lim: nat) returns (a: seq<string>)
    requires lim > 0
    ensures a == Take(SplitPieces(s, sep), lim)
  {
    if |s| == 0 {
      if |sep| == 0 {
        return [];
      }
      return [s];
    }
    a := CutPieces(s, sep, lim);
  }

  /**
   * The state of the cutting loop: `a` holds the pieces cut so far, fewer than the limit;
   * `p` is where the next piece starts and `q` where the search resumes, which is `p`
   * itself unless an empty separator forced a step past it.
   */
  ghost predicate CutState(s: string, sep: string, lim: nat, all: seq<string>, a: seq<string>, p: nat, q: nat)
  {
    p <= q <= |s| && |a| < lim &&
    (sep != "" ==> q == p) && (sep == "" ==> p < |s| && q <= p + 1) &&
    all == a + RestPieces(s, sep, p)
  }

  /**
   * What the cutting loop returns when it resumes with the pieces `a`, the next piece
   * starting at `p` and the search at `q`: one step of the loop per call.
   */
  ghost function CutLoop(s: string, sep: string, lim: nat, a: seq<string>, p: nat, q: nat): seq<string>
    requires p <= q <= |s|
    decreases |s| - p, |s| - q
  {
    if q == |s| then a + [s[p..|s|]]
    else
      var z := JavaIndexOf(s, sep, q);
      if z == -1 then a + [s[p..|s|]]
      else if z + |sep| == p then CutLoop(s, sep, lim, a, p, q + 1)
      else if |a| + 1 == lim then a + [s[p..z]]
      else CutLoop(s, sep, lim, a + [s[p..z]], z + |sep|, z + |sep|)
  }

  /** From any state of the loop, what it returns is the first `lim` pieces. */
  lemma {:induction false} CutLoopPieces(s: string, sep: string, lim: nat, all: seq<string>, a: seq<string>, p: nat, q: nat)
    requires CutState(s, sep, lim, all, a, p, q)
    ensures CutLoop(s, sep, lim, a, p, q) == Take(all, lim)
    decreases |s| - p, |s| - q
  {
    if q == |s| || JavaIndexOf(s, sep, q) == -1 {
      LastPiece(s, sep, lim, all, a, p, q);
    } else {
      var z := JavaIndexOf(s, sep, q);
      if z + |sep| == p {
        StallKeeps(s, sep, lim, all, a, p, q, z);
        CutLoopPieces(s, sep, lim, all, a, p, q + 1);
      } else {
        CutKeeps(s, sep, lim, all, a, p, q, z);
        if |a| + 1 == lim {
          CutReachesLimit(s, sep, lim, all, a + [s[p..z]], z + |sep|);
        } else {
          CutLoopPieces(s, sep, lim, all, a + [s[p..z]], z + |sep|, z + |sep|);
        }
      }
    }
  }

  /** The loop over a non-empty input: `p` is where the next piece starts, `q` where the search resumes. */
  method CutPieces(s: string, sep: string, lim: nat) returns (a: seq<string>)
    requires lim > 0 && |s| > 0
    ensures a == Take(SplitPieces(s, sep), lim)
  {
    a := [];
    var size := |s|;
    var p := 0;
    var q := p;
    ghost var result := CutLoop(s, sep, lim, a, p, q);
    CutLoopPieces(s, sep, lim, SplitPieces(s, sep), a, p, q);
    while q != size
      invariant p <= q <= size && |a| < lim
      invariant CutLoop(s, sep, lim, a, p, q) == result
      decreases size - p, size - q
    {
      var z := JavaIndexOf(s, sep, q);
      if z == -1 {
        break;
      } else {
        var e := z + |sep|;
        if e == p {
          q := q + 1;
        } else {
          var t := s[p..z];
          a := a + [t];
          if |a| == lim {
            return;
          }
          p := e;
          q := p;
        }
      }
    }
    var t := s[p..size];
    a := a + [t];
  }

  /** A match that ends where the piece starts is the empty separator at `p`: the search moves on by one. */
  lemma StallKeeps(s: string, sep: string, lim: nat, all: seq<string>, a: seq<string>, p: nat, q: nat, z: int)
    requires CutState(s, sep, lim, all, a, p, q) && q < |s|
    requires z == JavaIndexOf(s, sep, q) != -1 && z + |sep| == p
    ensures q == p && CutState(s, sep, lim, all, a, p, q + 1)
  {
    IndexOfBounds(s, sep, q);
  }

  /** Any other match ends the piece from `p`, and the loop goes on after the separator. */
  lemma CutKeeps(s: string, sep: string, lim: nat, all: seq<string>, a: seq<string>, p: nat, q: nat, z: int)
    requires CutState(s, sep, lim, all, a, p, q) && q < |s|
    requires z == JavaIndexOf(s, sep, q) != -1 && z + |sep| != p
    ensures p <= z && p < z + |sep| <= |s| && q <= z + |sep|
    ensures all == (a + [s[p..z]]) + RestPieces(s, sep, z + |sep|)
    ensures |a| + 1 < lim ==> CutState(s, sep, lim, all, a + [s[p..z]], z + |sep|, z + |sep|)
  {
    IndexOfBounds(s, sep, q);
    CutRest(s, sep, all, a, p, q, z);
  }

  /** The piece from `p` to the match is the next one, and the rest follow the separator. */
  lemma CutRest(s: string, sep: string, all: seq<string>, a: seq<string>, p: nat, q: nat, z: int)
    requires p <= q < |s| && (sep != "" ==> q == p) && (sep == "" ==> q <= p + 1)
    requires all == a + RestPieces(s, sep, p)
    requires z == JavaIndexOf(s, sep, q) != -1 && z + |sep| != p
    ensures p <= z <= z + |sep| <= |s|
    ensures all == (a + [s[p..z]]) + RestPieces(s, sep, z + |sep|)
  {
    IndexOfBounds(s, sep, q);
    RestPiecesStep(s, sep, p, q);
    PiecesAssoc(a, [s[p..z]], RestPieces(s, sep, z + |sep|));
  }

  /** With the limit reached the pieces cut so far are the first `lim` pieces. */
  lemma CutReachesLimit(s: string, sep: string, lim: nat, all: seq<string>, a: seq<string>, e: nat)
    requires e <= |s| && |a| == lim && all == a + RestPieces(s, sep, e)
    ensures a == Take(all, lim)
  {
    TakePrefix(a, RestPieces(s, sep, e), lim);
  }

  /** When the loop stops, the rest of the input is the last piece, within the limit. */
  lemma LastPiece(s: string, sep: string, lim: nat, all: seq<string>, a: seq<string>, p: nat, q: nat)
    requires CutState(s, sep, lim, all, a, p, q)
    requires q == |s| || JavaIndexOf(s, sep, q) == -1
    ensures p <= |s| && a + [s[p..|s|]] == Take(all, lim)
  {
    if sep == "" {
      IndexOfBounds(s, sep, q);
    }
    RestPiecesLast(s, sep, p);
    TakePrefix(a + [s[p..|s|]], [], lim);
    assert a + [s[p..|s|]] + [] == a + [s[p..|s|]];
  }

  /** An empty separator is found where the search starts; a found one lies within the input. */
  lemma IndexOfBounds(s: string, sep: string, q: nat)
    requires q <= |s|
    ensures sep == "" ==> JavaIndexOf(s, sep, q) == q
    ensures JavaIndexOf(s, sep, q) != -1 ==> q <= JavaIndexOf(s, sep, q) && JavaIndexOf(s, sep, q) + |sep| <= |s|
  {
  }

  lemma PiecesAssoc(a: seq<string>, b: seq<string>, c: seq<string>)
    ensures a + (b + c) == (a + b) + c
  {
  }

  /** One cut of the loop: the next piece runs from `p` to the occurrence found from `q`. */
  lemma RestPiecesStep(s: string, sep: string, p: nat, q: nat)
    requires p <= q < |s|
    requires sep != "" ==> q == p
    requires sep == "" ==> q == p + 1
    ensures JavaIndexOf(s, sep, q) != -1 ==>
      var z := JavaIndexOf(s, sep, q);
      z + |sep| <= |s| && RestPieces(s, sep, p) == [s[p..z]] + RestPieces(s, sep, z + |sep|)
  {
    if JavaIndexOf(s, sep, q) != -1 && sep == "" {
      JavaIndexOfIsFirst(s, sep, q);
      assert OccursAt(s, sep, q);
    }
  }

  /** When the loop stops, what is left of the input is the last piece. */
  lemma RestPiecesLast(s: string, sep: string, p: nat)
    requires p <= |s|
    requires sep != "" ==> p == |s| || JavaIndexOf(s, sep, p) == -1
    requires sep == "" ==> p == |s| - 1
    ensures RestPieces(s, sep, p) == [s[p..|s|]]
  {
    assert s[p..|s|] == s[p..];
    if sep == "" {
      assert CharsFrom(s, p + 1) == [];
      assert CharsFrom(s, p) == [s[p..p + 1]] + CharsFrom(s, p + 1);
    }
  }

  lemma TakePrefix<T>(a: seq<T>, rest: seq<T>, lim: nat)
    requires |a| == lim || (rest == [] && |a| <= lim)
    ensures Take(a + rest, lim) == a
  {
    assert (a + rest)[..|a|] == a;
  }

  // ---------------------------------------------------------------------
  // replace with a string search value

  /** The replaceValue argument: a template string or a function (its ToString-ed result). */
  datatype ReplaceValue =
    | Template(template: string)
    | Callback(fn: (string, int, string) -> string)

  /**
   * The `$` patterns of a replacement template for a string match
   * (GetSubstitution): `$$` is `$`, `$&` the matched text, `` $` `` the part
   * of the string before the match, `$'` the part after it; any other `$c`,
   * and a trailing `$`, are copied as they stand.
   */
  function GetSubstitution(matched: string, str: string, position: nat, template: string): string
    requires position + |matched| <= |str|
    decreases |template|
  {
    if template == [] then ""
    else if template[0] == '$' && |template| > 1 then
      Pattern(matched, str, position, template[1]) + GetSubstitution(matched, str, position, template[2..])
    else [template[0]] + GetSubstitution(matched, str, position, template[1..])
  }

  /** What `$c` stands for in a template. */
  function Pattern(matched: string, str: string, position: nat, c: char): string
    requires position + |matched| <= |str|
  {
    if c == '$' then "$"
    else if c == '&' then matched
    else if c == '`' then str[..position]
    else if c == '\'' then str[position + |matched|..]
    else ['$', c]
  }

  /** The scan invariant survives consuming `width` template characters that expand to `piece`. */
  lemma ExpandStep(matched: string, str: string, position: nat, t: string, cursor: nat, width: nat, out: string, piece: string)
    requires position + |matched| <= |str|
    requires cursor + width <= |t| && 1 <= width <= 2
    requires width == 2 ==> t[cursor] == '$' && piece == Pattern(matched, str, position, t[cursor + 1])
    requires width == 1 ==> !(t[cursor] == '$' && cursor + 1 < |t|) && piece == [t[cursor]]
    requires GetSubstitution(matched, str, position, t) == out + GetSubstitution(matched, str, position, t[cursor..])
    ensures GetSubstitution(matched, str, position, t) == (out + piece) + GetSubstitution(matched, str, position, t[cursor + width..])
  {
    var rest := t[cursor..];
    assert rest[width..] == t[cursor + width..];
    assert rest[0] == t[cursor] && (width == 2 ==> rest[1] == t[cursor + 1]);
    ExpandHead(matched, str, position, rest, width, piece);
    var g := GetSubstitution(matched, str, position, t[cursor + width..]);
    assert out + (piece + g) == (out + piece) + g;
  }

  /** The first `width` characters of a template expand to `piece`, the rest as they stand. */
  lemma ExpandHead(matched: string, str: string, position: nat, rest: string, width: nat, piece: string)
    requires position + |matched| <= |str|
    requires width <= |rest| && 1 <= width <= 2
    requires width == 2 ==> rest[0] == '$' && piece == Pattern(matched, str, position, rest[1])
    requires width == 1 ==> !(rest[0] == '$' && 1 < |rest|) && piece == [rest[0]]
    ensures GetSubstitution(matched, str, position, rest) == piece + GetSubstitution(matched, str, position, rest[width..])
  {
  }

  /** A template without `$` is inserted literally. */
  lemma {:induction false} SubstitutionWithoutDollar(matched: string, str: string, position: nat, template: string)
    requires position + |matched| <= |str|
    requires forall i :: 0 <= i < |template| ==> template[i] != '$'
    ensures GetSubstitution(matched, str, position, template) == template
    decreases |template|
  {
    if template != [] {
      SubstitutionWithoutDollar(matched, str, position, template[1..]);
    }
  }

  /** Substitution distributes over a split of the template that does not separate a `$` from its successor. */
  lemma {:induction false} SubstitutionAppend(matched: string, str: string, position: nat, t1: string, t2: string)
    requires position + |matched| <= |str|
    requires PairedDollars(t1)
    ensures GetSubstitution(matched, str, position, t1 + t2)
         == GetSubstitution(matched, str, position, t1) + GetSubstitution(matched, str, position, t2)
    decreases |t1|
  {
    var g2 := GetSubstitution(matched, str, position, t2);
    if t1 == [] {
      assert t1 + t2 == t2;
    } else {
      var width := if t1[0] == '$' then 2 else 1;
      var piece := if t1[0] == '$' then Pattern(matched, str, position, t1[1]) else [t1[0]];
      assert (t1 + t2)[width..] == t1[width..] + t2;
      assert (t1 + t2)[0] == t1[0] && (width == 2 ==> (t1 + t2)[1] == t1[1]);
      SubstitutionAppend(matched, str, position, t1[width..], t2);
      ExpandHead(matched, str, position, t1 + t2, width, piece);
      ExpandHead(matched, str, position, t1, width, piece);
      var g1 := GetSubstitution(matched, str, position, t1[width..]);
      assert piece + (g1 + g2) == (piece + g1) + g2;
    }
  }

  /** Every `$` in `t` is followed by a second character, read from the left. */
  predicate PairedDollars(t: string)
    decreases |t|
  {
    if t == [] then true
    else if t[0] == '$' then |t| > 1 && PairedDollars(t[2..])
    else PairedDollars(t[1..])
  }

  /** Each of the five two-character patterns expands as the table of GetSubstitution says. */
  lemma SubstitutionPatterns(matched: string, str: string, position: nat)
    requires position + |matched| <= |str|
    ensures GetSubstitution(matched, str, position, "$$") == "$"
    ensures GetSubstitution(matched, str, position, "$&") == matched
    ensures GetSubstitution(matched, str, position, "$`") == str[..position]
    ensures GetSubstitution(matched, str, position, "$'") == str[position + |matched|..]
    ensures GetSubstitution(matched, str, position, "$") == "$"
  {
    SubstitutionPair(matched, str, position, '$');
    SubstitutionPair(matched, str, position, '&');
    SubstitutionPair(matched, str, position, '`');
    SubstitutionPair(matched, str, position, '\'');
    assert "$"[1..] == [];
  }

  /** A template of `$` and one more character expands to what that pattern stands for. */
  lemma SubstitutionPair(matched: string, str: string, position: nat, c: char)
    requires position + |matched| <= |str|
    ensures GetSubstitution(matched, str, position, ['$', c]) == Pattern(matched, str, position, c)
  {
    assert ['$', c][2..] == [];
  }

  /** The replacement-template scan of the string-search branch, with the patterns as intended. */
  method ExpandReplacement(newstring: string, searchString: string, str: string, index: nat)
    returns (replacement: string)
    requires index + |searchString| <= |str|
    ensures replacement == GetSubstitution(searchString, str, index, newstring)
  {
    replacement := "";
    var cursor := 0;
    var len := |newstring|;
    while cursor < len
      invariant 0 <= cursor <= len
      invariant GetSubstitution(searchString, str, index, newstring)
             == replacement + GetSubstitution(searchString, str, index, newstring[cursor..])
    {
      var c := newstring[cursor];
      cursor := cursor + 1;
      if c == '$' && cursor < len {
        c := newstring[cursor];
        cursor := cursor + 1;
        var piece: string;
        if c == '&' {
          piece := searchString;
        } else if c == '`' {
          piece := str[..index];
        } else if c == '\'' {
          piece := str[index + |searchString|..];
        } else if c == '$' {
          piece := "$";
        } else {
          piece := ['$', c];
        }
        ExpandStep(searchString, str, index, newstring, cursor - 2, 2, replacement, piece);
        replacement := replacement + piece;
      } else {
        ExpandStep(searchString, str, index, newstring, cursor - 1, 1, replacement, [c]);
        replacement := replacement + [c];
      }
    }
  }

  /**
   * 15.5.4.11 String.prototype.replace with a string search value, with the
   * template patterns as GetSubstitution intends them: only the first
   * occurrence is replaced, and the input comes back unchanged when there is
   * none. A function replaceValue is called with the matched text, its
   * position and the whole string.
   */
  method ReplaceIntended(s: string, searchString: string, replaceValue: ReplaceValue) returns (r: string)
    ensures var index := JavaIndexOf(s, searchString, 0);
      (index < 0 ==> r == s)
      && (index >= 0 ==>
            r == s[..index] + Replacement(searchString, s, index, replaceValue) + s[index + |searchString|..])
  {
    var index := JavaIndexOf(s, searchString, 0);
    if index < 0 {
      return s;
    }
    var replacement: string;
    match replaceValue {
      case Callback(fn) =>
        replacement := fn(searchString, index, s);
      case Template(newstring) =>
        replacement := ExpandReplacement(newstring, searchString, s, index);
    }
    return s[..index] + replacement + s[index + |searchString|..];
  }

  /** The text that replaces the match: the callback's result or the expanded template. */
  function Replacement(searchString: string, s: string, index: nat, replaceValue: ReplaceValue): string
    requires index + |searchString| <= |s|
  {
    match replaceValue
    case Callback(fn) => fn(searchString, index, s)
    case Template(t) => GetSubstitution(searchString, s, index, t)
  }

  /** The text before the replaced occurrence contains no earlier occurrence: only the first is replaced. */
  lemma ReplaceTouchesFirstOccurrence(s: string, searchString: string, k: int)
    requires 0 <= k < JavaIndexOf(s, searchString, 0)
    ensures !OccursAt(s, searchString, k)
  {
    JavaIndexOfIsFirst(s, searchString, 0);
  }

  // ---------------------------------------------------------------------
  // The replacement scan as written

  /** Append an optional piece to an optional text; a thrown exception (None) propagates. */
  function Then(a: Option<string>, b: Option<string>): Option<string>
  {
    if a.Some? && b.Some? then Some(a.value + b.value) else None
  }

  /**
   * The template scan exactly as the string-search branch writes it: `$&`
   * gives the search string; `` $` `` and `$'` slice the SEARCH string at the
   * match index (`StringBuilder.append(CharSequence, int, int)`, which throws
   * when the index exceeds the search string's length: None); and `$$` falls
   * into the default case and is copied as `$$`.
   */
  function SubstitutionAsWritten(searchString: string, index: nat, template: string): Option<string>
    decreases |template|
  {
    if template == [] then Some("")
    else if template[0] == '$' && |template| > 1 then
      Then(PatternAsWritten(searchString, index, template[1]), SubstitutionAsWritten(searchString, index, template[2..]))
    else Then(Some([template[0]]), SubstitutionAsWritten(searchString, index, template[1..]))
  }

  /** What `$` followed by `c` expands to in the scan as written. */
  function PatternAsWritten(searchString: string, index: nat, c: char): Option<string>
  {
    if c == '&' then Some(searchString)
    else if c == '`' then (if index <= |searchString| then Some(searchString[..index]) else None)
    else if c == '\'' then (if index <= |searchString| then Some(searchString[index..]) else None)
    else Some(['$', c])
  }

  lemma ThenAssoc(a: string, b: string, c: Option<string>)
    ensures Then(Some(a), Then(Some(b), c)) == Then(Some(a + b), c)
  {
    if c.Some? {
      assert a + (b + c.value) == (a + b) + c.value;
    }
  }

  /** The replacement-template scan as the source writes it; None where Java would throw. */
  method ExpandReplacementAsWritten(newstring: string, searchString: string, index: nat)
    returns (replacement: Option<string>)
    ensures replacement == SubstitutionAsWritten(searchString, index, newstring)
  {
    var out := "";
    var cursor := 0;
    var len := |newstring|;
    ghost var whole := SubstitutionAsWritten(searchString, index, newstring);
    assert whole.Some? ==> "" + whole.value == whole.value;
    while cursor < len
      invariant 0 <= cursor <= len
      invariant SubstitutionAsWritten(searchString, index, newstring)
             == Then(Some(out), SubstitutionAsWritten(searchString, index, newstring[cursor..]))
    {
      var c := newstring[cursor];
      ghost var rest := newstring[cursor..];
      cursor := cursor + 1;
      if c == '$' && cursor < len {
        c := newstring[cursor];
        cursor := cursor + 1;
        assert rest[2..] == newstring[cursor..];
        var piece: string;
        if c == '&' {
          piece := searchString;
        } else if c == '`' {
          if index > |searchString| {
            return None;
          }
          piece := searchString[..index];
        } else if c == '\'' {
          if index > |searchString| {
            return None;
          }
          piece := searchString[index..];
        } else {
          piece := ['$', c];
        }
        ThenAssoc(out, piece, SubstitutionAsWritten(searchString, index, newstring[cursor..]));
        out := out + piece;
      } else {
        assert rest[1..] == newstring[cursor..];
        ThenAssoc(out, [c], SubstitutionAsWritten(searchString, index, newstring[cursor..]));
        out := out + [c];
      }
    }
    assert newstring[cursor..] == [];
    assert out + "" == out;
    return Some(out);
  }

  /**
   * 15.5.4.11 String.prototype.replace with a string search value, as the
   * source writes it: only the first occurrence is replaced, the input comes
   * back unchanged when there is none, and a template is expanded by the scan
   * as written. None stands for the exception the scan throws.
   */
  method Replace(s: string, searchString: string, replaceValue: ReplaceValue) returns (r: Option<string>)
    ensures var index := JavaIndexOf(s, searchString, 0);
      (index < 0 ==> r == Some(s))
      && (index >= 0 ==>
            var piece := ReplacementAsWritten(searchString, s, index, replaceValue);
            (r.Some? <==> piece.Some?) &&
            (r.Some? ==> r.value == s[..index] + piece.value + s[index + |searchString|..]))
  {
    var index := JavaIndexOf(s, searchString, 0);
    if index < 0 {
      return Some(s);
    }
    var replacement: Option<string>;
    match replaceValue {
      case Callback(fn) =>
        replacement := Some(fn(searchString, index, s));
      case Template(newstring) =>
        replacement := ExpandReplacementAsWritten(newstring, searchString, index);
    }
    if replacement.None? {
      return None;
    }
    return Some(s[..index] + replacement.value + s[index + |searchString|..]);
  }

  /** The text that replaces the match as written: the callback's result or the template scanned as written. */
  function ReplacementAsWritten(searchString: string, s: string, index: nat, replaceValue: ReplaceValue): Option<string>
  {
    match replaceValue
    case Callback(fn) => Some(fn(searchString, index, s))
    case Template(t) => SubstitutionAsWritten(searchString, index, t)
  }

  /** A template without `$` is inserted literally by the scan as written, as it is by GetSubstitution. */
  lemma {:induction false} SubstitutionAsWrittenWithoutDollar(searchString: string, index: nat, template: string)
    requires forall i :: 0 <= i < |template| ==> template[i] != '$'
    ensures SubstitutionAsWritten(searchString, index, template) == Some(template)
    decreases |template|
  {
    if template != [] {
      SubstitutionAsWrittenWithoutDollar(searchString, index, template[1..]);
      assert [template[0]] + template[1..] == template;
    }
  }

  /**
   * Where no `$` occurs in the template, replace as written and replace as
   * intended agree: the discrepancies lie only in the `$` patterns.
   */
  lemma ReplaceAgreesWithoutDollar(s: string, searchString: string, template: string)
    requires forall i :: 0 <= i < |template| ==> template[i] != '$'
    requires JavaIndexOf(s, searchString, 0) >= 0
    ensures var index := JavaIndexOf(s, searchString, 0);
            ReplacementAsWritten(searchString, s, index, Template(template)) ==
            Some(Replacement(searchString, s, index, Template(template))) == Some(template)
  {
    var index := JavaIndexOf(s, searchString, 0);
    SubstitutionAsWrittenWithoutDollar(searchString, index, template);
    SubstitutionWithoutDollar(searchString, s, index, template);
  }

  /** `"a".replace("a", "$$")`: as written the result is "$$", as intended "$". */
  lemma DollarDollarCounterexample()
    ensures SubstitutionAsWritten("a", 0, "$$") == Some("$$")
    ensures GetSubstitution("a", "a", 0, "$$") == "$"
  {
    SubstitutionAsWrittenPatterns("a", 0);
    SubstitutionPatterns("a", "a", 0);
  }

  /** Scanning two template parts one after the other, as written. */
  lemma {:induction false} SubstitutionAsWrittenAppend(searchString: string, index: nat, t1: string, t2: string)
    requires PairedDollars(t1)
    ensures SubstitutionAsWritten(searchString, index, t1 + t2)
         == Then(SubstitutionAsWritten(searchString, index, t1), SubstitutionAsWritten(searchString, index, t2))
    decreases |t1|
  {
    var w1 := SubstitutionAsWritten(searchString, index, t1);
    var w2 := SubstitutionAsWritten(searchString, index, t2);
    if t1 == [] {
      assert t1 + t2 == t2;
      if w2.Some? {
        assert "" + w2.value == w2.value;
      }
    } else if t1[0] == '$' {
      assert (t1 + t2)[2..] == t1[2..] + t2;
      SubstitutionAsWrittenAppend(searchString, index, t1[2..], t2);
      var c := t1[1];
      var piece :=
        if c == '&' then Some(searchString)
        else if c == '`' then (if index <= |searchString| then Some(searchString[..index]) else None)
        else if c == '\'' then (if index <= |searchString| then Some(searchString[index..]) else None)
        else Some(['$', c]);
      ThenAssociative(piece, SubstitutionAsWritten(searchString, index, t1[2..]), w2);
    } else {
      assert (t1 + t2)[1..] == t1[1..] + t2;
      SubstitutionAsWrittenAppend(searchString, index, t1[1..], t2);
      ThenAssociative(Some([t1[0]]), SubstitutionAsWritten(searchString, index, t1[1..]), w2);
    }
  }

  lemma ThenAssociative(a: Option<string>, b: Option<string>, c: Option<string>)
    ensures Then(a, Then(b, c)) == Then(Then(a, b), c)
  {
    if a.Some? && b.Some? && c.Some? {
      assert a.value + (b.value + c.value) == (a.value + b.value) + c.value;
    }
  }

  /** As written, the two-character patterns expand from the search string. */
  lemma SubstitutionAsWrittenPatterns(searchString: string, index: nat)
    requires index <= |searchString|
    ensures SubstitutionAsWritten(searchString, index, "$&") == Some(searchString)
    ensures SubstitutionAsWritten(searchString, index, "$`") == Some(searchString[..index])
    ensures SubstitutionAsWritten(searchString, index, "$'") == Some(searchString[index..])
    ensures SubstitutionAsWritten(searchString, index, "$$") == Some("$$")
  {
    SubstitutionAsWrittenPair(searchString, index, '&');
    SubstitutionAsWrittenPair(searchString, index, '`');
    SubstitutionAsWrittenPair(searchString, index, '\'');
    SubstitutionAsWrittenPair(searchString, index, '$');
  }

  /** As written, a template of `$` and one more character expands to that pattern alone. */
  lemma SubstitutionAsWrittenPair(searchString: string, index: nat, c: char)
    ensures SubstitutionAsWritten(searchString, index, ['$', c]) == PatternAsWritten(searchString, index, c)
  {
    assert ['$', c][2..] == [];
    var p := PatternAsWritten(searchString, index, c);
    assert p.Some? ==> p.value + "" == p.value;
  }

  /** As written, a one-character template other than `$` is copied. */
  lemma SubstitutionAsWrittenLiteral(searchString: string, index: nat, c: char)
    ensures SubstitutionAsWritten(searchString, index, [c]) == Some([c])
  {
    assert [c][1..] == [];
    assert [c] + "" == [c];
  }

  /** The template "[$`$']" is "[", then the two patterns, then "]". */
  lemma PrefixSuffixTemplate()
    ensures "[$`$']" == "[" + "$`" + "$'" + "]"
    ensures PairedDollars("[") && PairedDollars("[" + "$`") && PairedDollars("[" + "$`" + "$'")
  {
    var open, prefix, suffix := "[", "$`", "$'";
    assert prefix[2..] == [] && suffix[2..] == [] && open[1..] == [];
    assert (open + prefix)[1..] == prefix;
    assert (open + prefix + suffix)[1..] == prefix + suffix;
    assert (prefix + suffix)[2..] == suffix;
  }

  /**
   * `"abc".replace("b", "[$`$']")` as written: the prefix and the suffix are
   * cut from the search string "b" at the match index 1, giving "b" and "".
   */
  lemma PrefixSuffixAsWritten()
    ensures SubstitutionAsWritten("b", 1, "[$`$']") == Some("[b]")
  {
    PrefixSuffixTemplate();
    SubstitutionAsWrittenLiteral("b", 1, '[');
    SubstitutionAsWrittenLiteral("b", 1, ']');
    SubstitutionAsWrittenPatterns("b", 1);
    assert "b"[..1] == "b" && "b"[1..] == "";
    SubstitutionAsWrittenAppend("b", 1, "[", "$`");
    assert "[" + "b" == "[b";
    SubstitutionAsWrittenAppend("b", 1, "[" + "$`", "$'");
    assert "[b" + "" == "[b";
    SubstitutionAsWrittenAppend("b", 1, "[" + "$`" + "$'", "]");
    assert "[b" + "]" == "[b]";
  }

  /** The same replacement as intended: the prefix "a" and the suffix "c" come from "abc". */
  lemma PrefixSuffixIntended()
    ensures GetSubstitution("b", "abc", 1, "[$`$']") == "[ac]"
  {
    PrefixSuffixTemplate();
    SubstitutionWithoutDollar("b", "abc", 1, "[");
    SubstitutionWithoutDollar("b", "abc", 1, "]");
    SubstitutionPatterns("b", "abc", 1);
    assert "abc"[..1] == "a" && "abc"[1 + |"b"|..] == "c";
    SubstitutionAppend("b", "abc", 1, "[", "$`");
    SubstitutionAppend("b", "abc", 1, "[" + "$`", "$'");
    SubstitutionAppend("b", "abc", 1, "[" + "$`" + "$'", "]");
    assert "[" + "a" + "c" + "]" == "[ac]";
  }

  /** As written, a match past the search string's length makes `` $` `` throw. */
  lemma PrefixThrowsCounterexample()
    ensures SubstitutionAsWritten("b", 2, "$`") == None
  {
    var t := "$`";
    assert t[0] == '$' && t[1] == '`' && t[2..] == [];
  }
}
