// BCP 47 language tags (section 2.1 of RFC 5646): the tokenizer and the
// recursive-descent productions of the language-tag parser as functions over the
// lower-cased input and a parse state, and what a successful parse guarantees.
//
// A parse state holds the start of the current token; the token itself, its length,
// its kind and the position after it are all determined by that start.

module LanguageTags {
  import opened Wrappers

  // ---------------------------------------------------------------------------
  // Characters
  // ---------------------------------------------------------------------------

  predicate IsUpper(c: char) { 'A' <= c <= 'Z' }
  predicate IsAlpha(c: char) { 'a' <= c <= 'z' }
  predicate IsDigit(c: char) { '0' <= c <= '9' }
  predicate IsAlnum(c: char) { IsAlpha(c) || IsDigit(c) }

  predicate AllAlpha(t: string) { forall i :: 0 <= i < |t| ==> IsAlpha(t[i]) }
  predicate AllDigit(t: string) { forall i :: 0 <= i < |t| ==> IsDigit(t[i]) }
  predicate AllAlnum(t: string) { forall i :: 0 <= i < |t| ==> IsAlnum(t[i]) }

  /** Lower-cased input: ASCII letters, digits and `-` only. */
  predicate ValidInput(s: string) { forall i :: 0 <= i < |s| ==> IsAlnum(s[i]) || s[i] == '-' }

  function ToLower(c: char): char
  {
    if IsUpper(c) then (c as int - 'A' as int + 'a' as int) as char else c
  }

  /**
   * toLowerASCIIOrNull: the input with ASCII upper case lowered, or nothing when it
   * holds a character other than an ASCII letter, a digit or `-`.
   */
  function LowerASCII(s: string): Option<string>
  {
    if forall i :: 0 <= i < |s| ==> IsUpper(s[i]) || IsAlnum(s[i]) || s[i] == '-' then
      Some(seq(|s|, i requires 0 <= i < |s| => ToLower(s[i])))
    else None
  }

  /** Lowering keeps the length, yields valid input, and lowering again changes nothing. */
  lemma LowerASCIIValid(s: string)
    ensures LowerASCII(s).Some? <==> forall i :: 0 <= i < |s| ==> IsUpper(s[i]) || ValidInput([s[i]])
    ensures LowerASCII(s).Some? ==>
              var r := LowerASCII(s).value;
              |r| == |s| && ValidInput(r) && LowerASCII(r) == Some(r) &&
              forall i :: 0 <= i < |s| && !IsUpper(s[i]) ==> r[i] == s[i]
  {
    if LowerASCII(s).Some? {
      var r := LowerASCII(s).value;
      assert forall i :: 0 <= i < |r| ==> r[i] == ToLower(s[i]);
      assert ValidInput(r);
      assert LowerASCII(r).value == r;
    } else {
      var i :| 0 <= i < |s| && !(IsUpper(s[i]) || IsAlnum(s[i]) || s[i] == '-');
      assert !(IsUpper(s[i]) || ValidInput([s[i]])) by {
        assert [s[i]][0] == s[i];
      }
    }
  }

  // ---------------------------------------------------------------------------
  // Tokens
  // ---------------------------------------------------------------------------

  /** Token kinds are bit sets: a token with letters has ALPHA, one with digits DIGIT. */
  const NONE: bv2 := 0
  const ALPHA: bv2 := 1
  const DIGIT: bv2 := 2
  const ALPHA_DIGIT: bv2 := 3

  function CharKind(c: char): bv2
  {
    if IsAlpha(c) then ALPHA else if IsDigit(c) then DIGIT else NONE
  }

  /** The kind of a token, accumulated left to right as the tokenizer does. */
  function Kind(t: string): bv2
  {
    if |t| == 0 then NONE else Kind(t[..|t| - 1]) | CharKind(t[|t| - 1])
  }

  lemma {:induction false} KindOf(t: string)
    requires AllAlnum(t)
    ensures Kind(t) == ALPHA <==> |t| > 0 && AllAlpha(t)
    ensures Kind(t) == DIGIT <==> |t| > 0 && AllDigit(t)
    ensures Kind(t) & ALPHA_DIGIT != NONE <==> |t| > 0
  {
    if |t| > 0 {
      var u := t[..|t| - 1];
      assert AllAlnum(u);
      KindOf(u);
      assert AllAlpha(t) <==> AllAlpha(u) && IsAlpha(t[|t| - 1]) by {
        if AllAlpha(u) && IsAlpha(t[|t| - 1]) {
          forall i | 0 <= i < |t| ensures IsAlpha(t[i]) {
            if i < |t| - 1 { assert t[i] == u[i]; }
          }
        }
      }
      assert AllDigit(t) <==> AllDigit(u) && IsDigit(t[|t| - 1]) by {
        if AllDigit(u) && IsDigit(t[|t| - 1]) {
          forall i | 0 <= i < |t| ensures IsDigit(t[i]) {
            if i < |t| - 1 { assert t[i] == u[i]; }
          }
        }
      }
    }
  }

  /** Where the token starting at `p` ends: at the first character that is not alphanumeric. */
  function TokenEnd(s: string, p: nat): (e: nat)
    requires p <= |s|
    ensures p <= e <= |s|
    ensures forall i :: p <= i < e ==> IsAlnum(s[i])
    ensures e < |s| ==> !IsAlnum(s[e])
    decreases |s| - p
  {
    if p == |s| || !IsAlnum(s[p]) then p else TokenEnd(s, p + 1)
  }

  /** The position after the token: past its separator, or the end of the input. */
  function NextStart(s: string, p: nat): (q: nat)
    requires p <= |s|
    ensures p <= q <= |s|
    ensures TokenEnd(s, p) > p ==> q > p
  {
    var e := TokenEnd(s, p);
    if e < |s| then e + 1 else |s|
  }

  function Token(s: string, p: nat): (t: string)
    requires p <= |s|
    ensures AllAlnum(t) && |t| == TokenEnd(s, p) - p
  {
    s[p..TokenEnd(s, p)]
  }

  function TokenKind(s: string, p: nat): (k: bv2)
    requires p <= |s|
    ensures k == ALPHA <==> |Token(s, p)| > 0 && AllAlpha(Token(s, p))
    ensures k == DIGIT <==> |Token(s, p)| > 0 && AllDigit(Token(s, p))
    ensures k & ALPHA_DIGIT != NONE <==> |Token(s, p)| > 0
  {
    KindOf(Token(s, p));
    Kind(Token(s, p))
  }

  // ---------------------------------------------------------------------------
  // Tags and parse states
  // ---------------------------------------------------------------------------

  /** The parsed tag; `extLangs` holds the up to three extlang subtags in order. */
  datatype LanguageTag = LanguageTag(
    input: string,
    grandfathered: bool,
    language: Option<string>,
    extLangs: seq<string>,
    script: Option<string>,
    region: Option<string>,
    variants: set<string>,
    extensions: map<char, string>,
    privateuse: Option<string>)

  function NewTag(input: string): LanguageTag
  {
    LanguageTag(input, false, None, [], None, None, {}, map[], None)
  }

  /** The start of the current token, the tag built so far, and the duplicate flags. */
  datatype PState = PState(start: nat, tag: LanguageTag, dupVariants: bool, dupExtensions: bool)

  function Consume(s: string, ps: PState): (r: PState)
    requires ps.start <= |s|
    ensures r == ps.(start := NextStart(s, ps.start))
  {
    ps.(start := NextStart(s, ps.start))
  }

  function TokenLength(s: string, p: nat): nat
    requires p <= |s|
  {
    TokenEnd(s, p) - p
  }

  /**
   * The token at `p` is alphanumeric. The parser tests `token & ALPHA_DIGIT != 0`; by
   * `TokenKind`'s contract that holds exactly when the token is not empty.
   */
  predicate Alphanum(s: string, p: nat)
    requires p <= |s|
  {
    TokenEnd(s, p) > p
  }

  const Irregular: set<string> := {"en-gb-oed", "i-ami", "i-bnn", "i-default", "i-enochian", "i-hak",
    "i-klingon", "i-lux", "i-mingo", "i-navajo", "i-pwn", "i-tao", "i-tay", "i-tsu",
    "sgn-be-fr", "sgn-be-nl", "sgn-ch-de"}

  const Regular: set<string> := {"art-lojban", "cel-gaulish", "no-bok", "no-nyn", "zh-guoyu",
    "zh-hakka", "zh-min", "zh-min-nan", "zh-xiang"}

  const Grandfathered: set<string> := Irregular + Regular

  // ---------------------------------------------------------------------------
  // Productions
  // ---------------------------------------------------------------------------

  /** language = 2*3ALPHA ["-" extlang] / 4ALPHA / 5*8ALPHA */
  function Language(s: string, ps: PState): (r: (bool, PState))
    requires ps.start <= |s|
    ensures ps.start <= r.1.start <= |s|
    ensures r.0 ==> r.1.start > ps.start
    ensures !r.0 ==> r.1 == ps
    ensures r.1.dupVariants == ps.dupVariants && r.1.dupExtensions == ps.dupExtensions
    ensures r.1.tag == ps.tag.(language := r.1.tag.language, extLangs := r.1.tag.extLangs)
    ensures r.0 && ps.tag.extLangs == [] ==> LanguageShape(r.1.tag.language, r.1.tag.extLangs)
    ensures r.0 ==> r.1.tag.language == Some(Token(s, ps.start))
  {
    var len := TokenLength(s, ps.start);
    if TokenKind(s, ps.start) == ALPHA && 2 <= len <= 3 then
      var ps1 := Consume(s, ps.(tag := ps.tag.(language := Some(Token(s, ps.start)))));
      (true, Extlang(s, ps1).1)
    else if TokenKind(s, ps.start) == ALPHA && 4 <= len <= 8 then
      (true, Consume(s, ps.(tag := ps.tag.(language := Some(Token(s, ps.start))))))
    else (false, ps)
  }

  /** extlang = 3ALPHA *2("-" 3ALPHA) */
  function Extlang(s: string, ps: PState): (r: (bool, PState))
    requires ps.start <= |s|
    ensures ps.start <= r.1.start <= |s|
    ensures !r.0 ==> r.1 == ps
    ensures r.1.dupVariants == ps.dupVariants && r.1.dupExtensions == ps.dupExtensions
    ensures r.1.tag == ps.tag.(extLangs := r.1.tag.extLangs)
    ensures r.0 ==> 1 <= |r.1.tag.extLangs| <= 3 &&
                    forall e :: e in r.1.tag.extLangs ==> |e| == 3 && AllAlpha(e)
  {
    if TokenKind(s, ps.start) == ALPHA && TokenLength(s, ps.start) == 3 then
      var e1 := Token(s, ps.start);
      var ps1 := Consume(s, ps.(tag := ps.tag.(extLangs := [e1])));
      if TokenKind(s, ps1.start) == ALPHA && TokenLength(s, ps1.start) == 3 then
        var e2 := Token(s, ps1.start);
        var ps2 := Consume(s, ps1.(tag := ps1.tag.(extLangs := [e1, e2])));
        if TokenKind(s, ps2.start) == ALPHA && TokenLength(s, ps2.start) == 3 then
          var e3 := Token(s, ps2.start);
          (true, Consume(s, ps2.(tag := ps2.tag.(extLangs := [e1, e2, e3]))))
        else (true, ps2)
      else (true, ps1)
    else (false, ps)
  }

  /** script = 4ALPHA */
  function Script(s: string, ps: PState): (r: (bool, PState))
    requires ps.start <= |s|
    ensures ps.start <= r.1.start <= |s|
    ensures !r.0 ==> r.1 == ps
    ensures r.0 ==> r.1 == Consume(s, ps.(tag := ps.tag.(script := Some(Token(s, ps.start)))))
    ensures r.1.tag == ps.tag.(script := r.1.tag.script)
    ensures r.1.dupVariants == ps.dupVariants && r.1.dupExtensions == ps.dupExtensions
    ensures ScriptShape(ps.tag.script) ==> ScriptShape(r.1.tag.script)
  {
    if TokenKind(s, ps.start) == ALPHA && TokenLength(s, ps.start) == 4 then
      (true, Consume(s, ps.(tag := ps.tag.(script := Some(Token(s, ps.start))))))
    else (false, ps)
  }

  /** region = 2ALPHA / 3DIGIT */
  function Region(s: string, ps: PState): (r: (bool, PState))
    requires ps.start <= |s|
    ensures ps.start <= r.1.start <= |s|
    ensures !r.0 ==> r.1 == ps
    ensures r.0 ==> r.1 == Consume(s, ps.(tag := ps.tag.(region := Some(Token(s, ps.start)))))
    ensures r.1.tag == ps.tag.(region := r.1.tag.region)
    ensures r.1.dupVariants == ps.dupVariants && r.1.dupExtensions == ps.dupExtensions
    ensures RegionShape(ps.tag.region) ==> RegionShape(r.1.tag.region)
  {
    var len := TokenLength(s, ps.start);
    if (TokenKind(s, ps.start) == ALPHA && len == 2) || (TokenKind(s, ps.start) == DIGIT && len == 3) then
      (true, Consume(s, ps.(tag := ps.tag.(region := Some(Token(s, ps.start))))))
    else (false, ps)
  }

  /** storeVariant: a variant seen before raises the duplicate flag. */
  function StoreVariant(ps: PState, v: string): (r: PState)
    ensures r.tag.variants == ps.tag.variants + {v}
    ensures r.dupVariants <==> ps.dupVariants || v in ps.tag.variants
    ensures r.start == ps.start && r.dupExtensions == ps.dupExtensions
  {
    ps.(tag := ps.tag.(variants := ps.tag.variants + {v}), dupVariants := ps.dupVariants || v in ps.tag.variants)
  }

  /** variant = 5*8alphanum / (DIGIT 3alphanum) */
  function Variant(s: string, ps: PState): (r: (bool, PState))
    requires ps.start <= |s|
    ensures ps.start <= r.1.start <= |s|
    ensures r.0 ==> r.1.start > ps.start
    ensures !r.0 ==> r.1 == ps
    ensures r.0 ==> r.1 == Consume(s, StoreVariant(ps, Token(s, ps.start)))
  {
    var len := TokenLength(s, ps.start);
    if Alphanum(s, ps.start) && 5 <= len <= 8 then
      (true, Consume(s, StoreVariant(ps, Token(s, ps.start))))
    else if Alphanum(s, ps.start) && len == 4 && IsDigit(s[ps.start]) then
      (true, Consume(s, StoreVariant(ps, Token(s, ps.start))))
    else (false, ps)
  }

  /** storeExtension: a singleton seen before raises the duplicate flag. */
  function StoreExtension(ps: PState, singleton: char, value: string): (r: PState)
    ensures r.tag.extensions == ps.tag.extensions[singleton := value]
    ensures r.dupExtensions <==> ps.dupExtensions || singleton in ps.tag.extensions
    ensures r.start == ps.start && r.dupVariants == ps.dupVariants
  {
    ps.(tag := ps.tag.(extensions := ps.tag.extensions[singleton := value]),
        dupExtensions := ps.dupExtensions || singleton in ps.tag.extensions)
  }

  /**
   * The tokens from `a` run up to `b`, one separator between each two, and each has
   * `lo` to `hi` characters.
   */
  predicate RunShape(s: string, a: nat, b: nat, lo: nat, hi: nat)
    requires a <= b <= |s|
    decreases b - a
  {
    var e := TokenEnd(s, a);
    lo <= e - a <= hi && e <= b && (e == b || RunShape(s, e + 1, b, lo, hi))
  }

  /** A run ending at `m`, followed after one separator by a token ending at `b`, runs to `b`. */
  lemma {:induction false} RunAppend(s: string, a: nat, m: nat, b: nat, lo: nat, hi: nat)
    requires a <= m < b <= |s|
    requires TokenEnd(s, m + 1) == b && lo <= b - m - 1 <= hi
    ensures RunShape(s, a, m, lo, hi) ==> RunShape(s, a, b, lo, hi)
    decreases m - a
  {
    var e := TokenEnd(s, a);
    if RunShape(s, a, m, lo, hi) && e < m {
      RunAppend(s, e + 1, m, b, lo, hi);
    }
  }

  /**
   * The subtags after the first of an extension: `len` counts the characters from
   * `startExt` through the last subtag taken, separators included.
   */
  function ExtensionSubtags(s: string, p: nat, startExt: nat, len: nat): (r: (nat, nat))
    requires p <= |s|
    requires startExt + len + 1 == p || startExt + len == p == |s|
    ensures p <= r.1 <= |s| && len <= r.0
    ensures startExt + r.0 + 1 == r.1 || startExt + r.0 == r.1 == |s|
    decreases |s| - p
  {
    var tl := TokenLength(s, p);
    if Alphanum(s, p) && 2 <= tl <= 8 then
      ExtensionSubtags(s, NextStart(s, p), startExt, len + tl + 1)
    else (len, p)
  }

  /** One turn of the subtag loop: a 2 to 8 character subtag is taken with its separator. */
  lemma ExtensionSubtagsTurn(s: string, p: nat, startExt: nat, len: nat, q: nat, len': nat)
    requires p <= |s|
    requires startExt + len + 1 == p || startExt + len == p == |s|
    requires Alphanum(s, p) && 2 <= TokenLength(s, p) <= 8
    requires q == NextStart(s, p) && len' == len + TokenLength(s, p) + 1
    ensures startExt + len' + 1 == q || startExt + len' == q == |s|
    ensures ExtensionSubtags(s, q, startExt, len') == ExtensionSubtags(s, p, startExt, len)
  {
  }

  /** The subtags an extension takes form a run of tokens of 2 to 8 characters. */
  lemma {:induction false} ExtensionSubtagsRun(s: string, p: nat, startExt: nat, len: nat)
    requires p <= |s|
    requires startExt + len + 1 == p || startExt + len == p == |s|
    requires RunShape(s, startExt, startExt + len, 2, 8)
    ensures RunShape(s, startExt, startExt + ExtensionSubtags(s, p, startExt, len).0, 2, 8)
    decreases |s| - p
  {
    var tl := TokenLength(s, p);
    if Alphanum(s, p) && 2 <= tl <= 8 {
      var q, len' := NextStart(s, p), len + tl + 1;
      ExtensionSubtagStep(s, p, startExt, len);
      ExtensionSubtagsRun(s, q, startExt, len');
      ExtensionSubtagsTurn(s, p, startExt, len, q, len');
    }
  }

  /** One more subtag of 2 to 8 characters extends the run by it and its separator. */
  lemma ExtensionSubtagStep(s: string, p: nat, startExt: nat, len: nat)
    requires p <= |s|
    requires startExt + len + 1 == p || startExt + len == p == |s|
    requires RunShape(s, startExt, startExt + len, 2, 8)
    requires 2 <= TokenLength(s, p) <= 8
    ensures var len' := len + TokenLength(s, p) + 1;
            var q := NextStart(s, p);
            (startExt + len' + 1 == q || startExt + len' == q == |s|) &&
            RunShape(s, startExt, startExt + len', 2, 8)
  {
    RunAppend(s, startExt, startExt + len, p + TokenLength(s, p), 2, 8);
  }

  /**
   * The subtags of an extension, the first of them at `p1`: their text, separators
   * included, and the start of the token after them.
   */
  function ExtensionText(s: string, p1: nat): (r: (string, nat))
    requires p1 <= |s|
    ensures NextStart(s, p1) <= r.1 <= |s|
    ensures p1 + |r.0| + 1 == r.1 || p1 + |r.0| == r.1 == |s|
  {
    var e := ExtensionSubtags(s, NextStart(s, p1), p1, TokenLength(s, p1));
    (s[p1..p1 + e.0], e.1)
  }

  /**
   * extension = singleton 1*("-" (2*8alphanum)), the singleton any alphanumeric but
   * `x`; without a subtag after the singleton the parser rolls back to it.
   */
  function Extension(s: string, ps: PState): (r: (bool, PState))
    requires ps.start <= |s|
    ensures ps.start <= r.1.start <= |s|
    ensures r.0 ==> r.1.start > ps.start
    ensures !r.0 ==> r.1 == ps
    ensures r.1.dupVariants == ps.dupVariants
    ensures r.1.tag == ps.tag.(extensions := r.1.tag.extensions)
    ensures r.0 ==> IsAlnum(s[ps.start]) && s[ps.start] != 'x' && 2 <= TokenLength(s, NextStart(s, ps.start)) <= 8
    ensures r.0 ==> (r.1.dupExtensions <==> ps.dupExtensions || s[ps.start] in ps.tag.extensions)
    ensures r.0 ==> r.1.tag.extensions == ps.tag.extensions[s[ps.start] := ExtensionText(s, NextStart(s, ps.start)).0]
  {
    if Alphanum(s, ps.start) && TokenLength(s, ps.start) == 1 && s[ps.start] != 'x' then
      var singleton := s[ps.start];
      var startExt := NextStart(s, ps.start);
      var tl := TokenLength(s, startExt);
      if Alphanum(s, startExt) && 2 <= tl <= 8 then
        var v := ExtensionText(s, startExt);
        (true, StoreExtension(ps.(start := v.1), singleton, v.0))
      else (false, ps)
    else (false, ps)
  }

  /** An extension whose singleton and first subtag are in place is taken and stored. */
  lemma ExtensionTaken(s: string, ps: PState)
    requires ps.start <= |s| && Alphanum(s, ps.start) && TokenLength(s, ps.start) == 1 && s[ps.start] != 'x'
    requires Alphanum(s, NextStart(s, ps.start)) && 2 <= TokenLength(s, NextStart(s, ps.start)) <= 8
    ensures Extension(s, ps) == (true, StoreExtension(ps.(start := ExtensionText(s, NextStart(s, ps.start)).1),
                                                      s[ps.start], ExtensionText(s, NextStart(s, ps.start)).0))
  {
  }

  /** The subtags after the first of a private use sequence. */
  function PrivateuseSubtags(s: string, p: nat): (r: nat)
    requires p <= |s|
    ensures p <= r <= |s|
    decreases |s| - p
  {
    var tl := TokenLength(s, p);
    if Alphanum(s, p) && 1 <= tl <= 8 then PrivateuseSubtags(s, NextStart(s, p)) else p
  }

  /** One turn of the private use loop: a subtag of 1 to 8 characters is skipped. */
  lemma PrivateuseSubtagsTurn(s: string, p: nat, q: nat)
    requires p <= |s| && Alphanum(s, p) && 1 <= TokenLength(s, p) <= 8
    requires q == NextStart(s, p)
    ensures PrivateuseSubtags(s, q) == PrivateuseSubtags(s, p)
  {
  }

  /**
   * privateuse = "x" 1*("-" (1*8alphanum)); the private use value is the rest of the
   * input from its first subtag, and without a subtag the parser rolls back to `x`.
   */
  function Privateuse(s: string, ps: PState): (r: (bool, PState))
    requires ps.start <= |s|
    ensures ps.start <= r.1.start <= |s|
    ensures !r.0 ==> r.1 == ps
    ensures r.1.tag == ps.tag.(privateuse := r.1.tag.privateuse)
    ensures r.0 ==> r.1.start > ps.start && r.1.dupVariants == ps.dupVariants &&
                    r.1.dupExtensions == ps.dupExtensions &&
                    r.1.tag == ps.tag.(privateuse := Some(s[NextStart(s, ps.start)..]))
  {
    if TokenKind(s, ps.start) == ALPHA && TokenLength(s, ps.start) == 1 && s[ps.start] == 'x' then
      var ps1 := Consume(s, ps);
      var tl := TokenLength(s, ps1.start);
      if Alphanum(s, ps1.start) && 1 <= tl <= 8 then
        var startPrivateuse := ps1.start;
        var p2 := PrivateuseSubtags(s, NextStart(s, ps1.start));
        (true, ps.(start := p2, tag := ps.tag.(privateuse := Some(s[startPrivateuse..]))))
      else (false, ps)
    else (false, ps)
  }

  /** `while (variant()) { if (duplicateVariants) return false; }` */
  function VariantLoop(s: string, ps: PState): (r: (bool, PState))
    requires ps.start <= |s|
    ensures ps.start <= r.1.start <= |s|
    ensures r.0 ==> !r.1.dupVariants || ps.dupVariants
    ensures r.1.dupExtensions == ps.dupExtensions
    ensures r.1.tag == ps.tag.(variants := r.1.tag.variants)
    ensures VariantsShape(ps.tag.variants) ==> VariantsShape(r.1.tag.variants)
    decreases |s| - ps.start
  {
    var (ok, ps1) := Variant(s, ps);
    if !ok then (true, ps1)
    else if ps1.dupVariants then (false, ps1)
    else VariantLoop(s, ps1)
  }

  /** `while (extension()) { if (duplicateExtensions) return false; }` */
  function ExtensionLoop(s: string, ps: PState): (r: (bool, PState))
    requires ps.start <= |s|
    ensures ps.start <= r.1.start <= |s|
    ensures r.0 ==> !r.1.dupExtensions || ps.dupExtensions
    ensures r.1.dupVariants == ps.dupVariants
    ensures r.1.tag == ps.tag.(extensions := r.1.tag.extensions)
    decreases |s| - ps.start
  {
    var (ok, ps1) := Extension(s, ps);
    if !ok then (true, ps1)
    else if ps1.dupExtensions then (false, ps1)
    else ExtensionLoop(s, ps1)
  }

  /** langtag = language ["-" script] ["-" region] *("-" variant) *("-" extension) ["-" privateuse] */
  function Langtag(s: string, ps: PState): (r: (bool, PState))
    requires ps.start <= |s|
    ensures ps.start <= r.1.start <= |s|
    ensures r.0 && !ps.dupVariants && !ps.dupExtensions ==> !r.1.dupVariants && !r.1.dupExtensions
    ensures r.0 && TagShape(ps.tag) && ps.tag.extLangs == [] ==> TagShape(r.1.tag)
  {
    var (ok, ps1) := Language(s, ps);
    if !ok then (false, ps1)
    else
      var ps2 := Script(s, ps1).1;
      var ps3 := Region(s, ps2).1;
      var (ok4, ps4) := VariantLoop(s, ps3);
      if !ok4 then (false, ps4)
      else
        var (ok5, ps5) := ExtensionLoop(s, ps4);
        if !ok5 then (false, ps5)
        else (true, Privateuse(s, ps5).1)
  }

  /**
   * Language-Tag = langtag / privateuse / grandfathered, tried grandfathered first. The
   * third component is the parser's position afterwards: a grandfathered tag consumes
   * the whole input, otherwise it is the position after the current token.
   */
  function LanguageTagProduction(s: string): (r: (bool, PState, nat))
  {
    var ps0 := PState(0, NewTag(s), false, false);
    if s in Grandfathered then (true, ps0.(tag := ps0.tag.(grandfathered := true)), |s|)
    else
      var (ok1, ps1) := Privateuse(s, ps0);
      if ok1 then (true, ps1, NextStart(s, ps1.start))
      else
        var (ok2, ps2) := Langtag(s, ps1);
        (ok2, ps2, NextStart(s, ps2.start))
  }

  /** The checks `parse` makes before the grammar runs. */
  predicate Rejected(raw: string)
  {
    LowerASCII(raw).None? || |raw| == 0 || LowerASCII(raw).value[|raw| - 1] == '-'
  }

  /**
   * parse as written: the tag when the productions succeed and the position is at the
   * end of the input. The position is the one after the current token, so a last
   * subtag no production took is not noticed.
   */
  function Parse(raw: string): Option<LanguageTag>
  {
    if Rejected(raw) then None
    else
      var s := LowerASCII(raw).value;
      var (ok, ps, pos) := LanguageTagProduction(s);
      if ok && pos >= |s| then Some(ps.tag) else None
  }

  /**
   * parse as evidently intended: besides the position, the current token must be the
   * empty one at the end of the input, that is, every subtag was taken.
   */
  function ParseIntended(raw: string): (r: Option<LanguageTag>)
    ensures r.Some? && !r.value.grandfathered ==>
              LowerASCII(raw).Some? && LanguageTagProduction(LowerASCII(raw).value).1.start == |raw|
  {
    LowerASCIIValid(raw);
    if Rejected(raw) then None
    else
      var s := LowerASCII(raw).value;
      var (ok, ps, pos) := LanguageTagProduction(s);
      if ok && pos >= |s| && (ps.tag.grandfathered || ps.start >= |s|) then Some(ps.tag) else None
  }

  // ---------------------------------------------------------------------------
  // Subtag shapes
  // ---------------------------------------------------------------------------

  /**
   * One or more subtags of `lo` to `hi` alphanumerics, separated by single `-`: the
   * tokens of the whole string form a run.
   */
  predicate ValueShape(v: string, lo: nat, hi: nat)
  {
    ValidInput(v) && RunShape(v, 0, |v|, lo, hi)
  }

  /** Within a slice, a token ends where it ends in the whole string, shifted. */
  lemma {:induction false} TokenEndSlice(s: string, a: nat, b: nat, p: nat)
    requires a <= p <= b <= |s| && TokenEnd(s, p) <= b
    ensures TokenEnd(s[a..b], p - a) == TokenEnd(s, p) - a
    decreases b - p
  {
    if p < b {
      assert s[a..b][p - a] == s[p];
      if IsAlnum(s[p]) {
        TokenEndSlice(s, a, b, p + 1);
      }
    }
  }

  /** A run from `p` up to `b` is a run in the slice from `a` to `b`. */
  lemma {:induction false} RunShapeSlice(s: string, a: nat, b: nat, p: nat, lo: nat, hi: nat)
    requires a <= p <= b <= |s| && RunShape(s, p, b, lo, hi)
    ensures RunShape(s[a..b], p - a, b - a, lo, hi)
    decreases b - p
  {
    var e := TokenEnd(s, p);
    TokenEndSlice(s, a, b, p);
    if e < b {
      RunShapeSlice(s, a, b, e + 1, lo, hi);
    }
  }

  /** On valid input, the text a run covers is a well-shaped value. */
  lemma RunValue(s: string, a: nat, b: nat, lo: nat, hi: nat)
    requires ValidInput(s) && a <= b <= |s| && RunShape(s, a, b, lo, hi)
    ensures ValueShape(s[a..b], lo, hi)
  {
    RunShapeSlice(s, a, b, a, lo, hi);
    SliceValid(s, a, b);
  }

  lemma SliceValid(s: string, a: nat, b: nat)
    requires ValidInput(s) && a <= b <= |s|
    ensures ValidInput(s[a..b])
  {
    forall i | 0 <= i < b - a ensures IsAlnum(s[a..b][i]) || s[a..b][i] == '-' {
      assert s[a..b][i] == s[a + i];
    }
  }

  /** language = 2*8 letters; extlangs, up to three of 3 letters, only after a 2- or 3-letter language. */
  predicate LanguageShape(language: Option<string>, extLangs: seq<string>)
  {
    (language.Some? ==> 2 <= |language.value| <= 8 && AllAlpha(language.value)) &&
    |extLangs| <= 3 &&
    (forall e :: e in extLangs ==> |e| == 3 && AllAlpha(e)) &&
    (|extLangs| > 0 ==> language.Some? && |language.value| <= 3)
  }

  predicate ScriptShape(script: Option<string>)
  {
    script.Some? ==> |script.value| == 4 && AllAlpha(script.value)
  }

  predicate RegionShape(region: Option<string>)
  {
    region.Some? ==>
      (|region.value| == 2 && AllAlpha(region.value)) || (|region.value| == 3 && AllDigit(region.value))
  }

  /** variant = 5*8alphanum / (DIGIT 3alphanum) */
  predicate VariantShape(v: string)
  {
    AllAlnum(v) && (5 <= |v| <= 8 || (|v| == 4 && IsDigit(v[0])))
  }

  predicate VariantsShape(variants: set<string>)
  {
    forall v :: v in variants ==> VariantShape(v)
  }

  /** What a successful parse guarantees about the language, script, region and variants. */
  predicate TagShape(t: LanguageTag)
  {
    LanguageShape(t.language, t.extLangs) && ScriptShape(t.script) && RegionShape(t.region) &&
    VariantsShape(t.variants)
  }

  /**
   * An extension stores, under its singleton (an alphanumeric other than `x`), its
   * subtags of 2 to 8 alphanumerics, and changes no other entry.
   */
  lemma ExtensionStoresShape(s: string, ps: PState)
    requires ValidInput(s) && ps.start <= |s| && Extension(s, ps).0
    ensures var c := s[ps.start];
            var t := Extension(s, ps).1.tag;
            IsAlnum(c) && c != 'x' && c in t.extensions && ValueShape(t.extensions[c], 2, 8) &&
            t.extensions == ps.tag.extensions[c := t.extensions[c]]
  {
    ExtensionValueShape(s, ps);
  }

  lemma ExtensionValueShape(s: string, ps: PState)
    requires ValidInput(s) && ps.start <= |s| && Extension(s, ps).0
    ensures ValueShape(Extension(s, ps).1.tag.extensions[s[ps.start]], 2, 8)
  {
    var p1 := NextStart(s, ps.start);
    assert Extension(s, ps).1.tag.extensions[s[ps.start]] == ExtensionText(s, p1).0;
    ExtensionTextShape(s, p1);
  }

  /** The text of an extension's subtags, from its first one at `p1`, is a run of 2 to 8 alphanumerics. */
  lemma ExtensionTextShape(s: string, p1: nat)
    requires ValidInput(s) && p1 <= |s| && 2 <= TokenLength(s, p1) <= 8
    ensures ValueShape(ExtensionText(s, p1).0, 2, 8)
  {
    var tl := TokenLength(s, p1);
    var q := NextStart(s, p1);
    RunOne(s, p1, 2, 8);
    ExtensionSubtagsRun(s, q, p1, tl);
    var r := ExtensionSubtags(s, q, p1, tl);
    RunValue(s, p1, p1 + r.0, 2, 8);
    assert ExtensionText(s, p1).0 == s[p1..p1 + r.0];
  }

  /** A single token of `lo` to `hi` characters is a run. */
  lemma RunOne(s: string, p: nat, lo: nat, hi: nat)
    requires p <= |s| && lo <= TokenLength(s, p) <= hi
    ensures RunShape(s, p, p + TokenLength(s, p), lo, hi)
  {
  }

  // ---------------------------------------------------------------------------
  // Properties of parse
  // ---------------------------------------------------------------------------

  /**
   * Every subtag a parsed tag holds has the shape its production demands: language 2
   * to 8 letters, extlangs only after a 2- or 3-letter language, script 4 letters,
   * region 2 letters or 3 digits, variants and extension values as in the grammar.
   */
  lemma ParsedShape(raw: string)
    requires Parse(raw).Some?
    ensures TagShape(Parse(raw).value)
  {
    var s := LowerASCII(raw).value;
    LowerASCIIValid(raw);
    var ps0 := PState(0, NewTag(s), false, false);
    if s !in Grandfathered {
      var (ok1, ps1) := Privateuse(s, ps0);
      if !ok1 {
        assert TagShape(ps1.tag);
      }
    }
  }

  /** Every extension value is a run of subtags of 2 to 8 alphanumerics. */
  predicate ExtensionsShape(extensions: map<char, string>)
  {
    forall c :: c in extensions ==> ValueShape(extensions[c], 2, 8)
  }

  /** The extension loop stores only values of the shape the grammar demands. */
  lemma {:induction false} ExtensionLoopShape(s: string, ps: PState)
    requires ValidInput(s) && ps.start <= |s| && ExtensionsShape(ps.tag.extensions)
    ensures ExtensionsShape(ExtensionLoop(s, ps).1.tag.extensions)
    decreases |s| - ps.start
  {
    var (ok, ps1) := Extension(s, ps);
    if ok {
      ExtensionStoresShape(s, ps);
      assert ExtensionsShape(ps1.tag.extensions);
      if !ps1.dupExtensions {
        ExtensionLoopShape(s, ps1);
      }
    }
  }

  /** A successful langtag sets the language and stores only well-shaped extension values. */
  lemma LangtagSubjectAndExtensions(s: string, ps: PState)
    requires ValidInput(s) && ps.start <= |s| && ExtensionsShape(ps.tag.extensions)
    ensures var (ok, ps') := Langtag(s, ps);
            ok ==> ps'.tag.language.Some? && ExtensionsShape(ps'.tag.extensions)
  {
    var (ok, psl) := Language(s, ps);
    if ok {
      var (ok4, ps4) := VariantLoop(s, Region(s, Script(s, psl).1).1);
      if ok4 {
        assert ps4.tag.language.Some? && ps4.tag.extensions == ps.tag.extensions;
        ExtensionLoopShape(s, ps4);
      }
    }
  }

  /** The extensions of a parsed tag have the shape the grammar demands. */
  lemma ParsedExtensionsShape(raw: string)
    requires Parse(raw).Some?
    ensures ExtensionsShape(Parse(raw).value.extensions)
  {
    var s := LowerASCII(raw).value;
    LowerASCIIValid(raw);
    var ps0 := PState(0, NewTag(s), false, false);
    if s !in Grandfathered {
      var (ok1, ps1) := Privateuse(s, ps0);
      if !ok1 {
        LangtagSubjectAndExtensions(s, ps1);
      }
    }
  }

  /** A parsed tag is grandfathered, has a language, or is a private use tag. */
  lemma ParsedHasSubject(raw: string)
    requires Parse(raw).Some?
    ensures var t := Parse(raw).value;
            t.grandfathered || t.language.Some? || t.privateuse.Some?
  {
    var s := LowerASCII(raw).value;
    LowerASCIIValid(raw);
    var ps0 := PState(0, NewTag(s), false, false);
    if s !in Grandfathered {
      var (ok1, ps1) := Privateuse(s, ps0);
      if !ok1 {
        LangtagSubjectAndExtensions(s, ps1);
      }
    }
  }

  /** The empty input is never a tag. */
  lemma ParseRejectsEmpty(raw: string)
    requires |raw| == 0
    ensures Parse(raw).None? && ParseIntended(raw).None?
  {
  }

  /** An input ending in `-` is never a tag. */
  lemma ParseRejectsTrailingDash(raw: string)
    requires |raw| > 0 && raw[|raw| - 1] == '-'
    ensures Parse(raw).None? && ParseIntended(raw).None?
  {
    if LowerASCII(raw).Some? {
      assert LowerASCII(raw).value[|raw| - 1] == ToLower('-');
    }
  }

  /** An input holding a character outside `[A-Za-z0-9-]` is never a tag. */
  lemma ParseRejectsInvalidChar(raw: string, i: nat)
    requires i < |raw| && !(IsUpper(raw[i]) || IsAlnum(raw[i]) || raw[i] == '-')
    ensures Parse(raw).None? && ParseIntended(raw).None?
  {
  }

  /** Every grandfathered tag ends in a letter. */
  lemma GrandfatheredEndsInLetter(g: string)
    requires g in Grandfathered
    ensures |g| > 0 && IsAlpha(g[|g| - 1])
  {
  }

  /**
   * A grandfathered tag, in any letter case, is accepted whole and flagged; nothing
   * else of the tag is filled in.
   */
  lemma GrandfatheredAccepted(raw: string)
    requires LowerASCII(raw).Some? && LowerASCII(raw).value in Grandfathered
    ensures Parse(raw) == Some(NewTag(LowerASCII(raw).value).(grandfathered := true))
    ensures ParseIntended(raw) == Parse(raw)
  {
    var s := LowerASCII(raw).value;
    GrandfatheredEndsInLetter(s);
    LowerASCIIValid(raw);
  }

  /** A variant stored a second time ends the variant loop, and with it the parse, in failure. */
  lemma DuplicateVariantFails(s: string, ps: PState)
    requires ps.start <= |s|
    requires Variant(s, ps).0 && Token(s, ps.start) in ps.tag.variants
    ensures !VariantLoop(s, ps).0
  {
  }

  /** An extension singleton stored a second time ends the extension loop in failure. */
  lemma DuplicateExtensionFails(s: string, ps: PState)
    requires ps.start <= |s|
    requires Extension(s, ps).0 && s[ps.start] in ps.tag.extensions
    ensures !ExtensionLoop(s, ps).0
  {
  }

  /** langtag fails on a failed variant or extension loop. */
  lemma LangtagNeedsLoops(s: string, ps: PState)
    requires ps.start <= |s| && Language(s, ps).0
    ensures var ps3 := Region(s, Script(s, Language(s, ps).1).1).1;
            !VariantLoop(s, ps3).0 ==> !Langtag(s, ps).0
  {
  }

  /** A parse that succeeds saw no repeated variant and no repeated extension singleton. */
  lemma ParsedWithoutDuplicates(raw: string)
    requires Parse(raw).Some? && !Parse(raw).value.grandfathered
    ensures var s := LowerASCII(raw).value;
            var (ok, ps, pos) := LanguageTagProduction(s);
            !ps.dupVariants && !ps.dupExtensions
  {
  }

  /**
   * An extension singleton with no valid subtag after it is rolled back: nothing is
   * stored, the current token is the singleton again.
   */
  lemma ExtensionRollback(s: string, ps: PState)
    requires ps.start <= |s| && Alphanum(s, ps.start) && TokenLength(s, ps.start) == 1 && s[ps.start] != 'x'
    requires var ps1 := Consume(s, ps);
             !(Alphanum(s, ps1.start) && 2 <= TokenLength(s, ps1.start) <= 8)
    ensures Extension(s, ps) == (false, ps)
  {
  }

  lemma PrivateuseRollback(s: string, ps: PState)
    requires ps.start <= |s| && TokenKind(s, ps.start) == ALPHA && TokenLength(s, ps.start) == 1 && s[ps.start] == 'x'
    requires var ps1 := Consume(s, ps);
             !(Alphanum(s, ps1.start) && 1 <= TokenLength(s, ps1.start) <= 8)
    ensures Privateuse(s, ps) == (false, ps)
  {
  }

  // ---------------------------------------------------------------------------
  // The dangling last subtag
  // ---------------------------------------------------------------------------

  /** The corrected parse accepts only what the parse as written accepts. */
  lemma IntendedNarrowsParse(raw: string)
    ensures ParseIntended(raw).Some? ==> Parse(raw) == ParseIntended(raw)
  {
  }

  /** The tokens of `en-a`: `en`, then `a`, then the empty token at the end. */
  lemma DanglingTokens()
    ensures Token("en-a", 0) == "en" && TokenKind("en-a", 0) == ALPHA && NextStart("en-a", 0) == 3
    ensures Token("en-a", 3) == "a" && TokenKind("en-a", 3) == ALPHA && NextStart("en-a", 3) == 4
  {
    var s := "en-a";
    assert TokenEnd(s, 0) == 2;
    assert TokenEnd(s, 3) == 4;
    assert Token(s, 0) == "en" && Token(s, 3) == "a";
  }

  /** `en-a` starts with the language `en` and no extlang. */
  lemma DanglingLanguage(ps0: PState, ps1: PState)
    requires ps0 == PState(0, NewTag("en-a"), false, false)
    requires ps1 == PState(3, NewTag("en-a").(language := Some("en")), false, false)
    ensures Language("en-a", ps0) == (true, ps1)
  {
    DanglingTokens();
    var s := "en-a";
    assert TokenLength(s, 0) == 2 && TokenLength(s, 3) == 1;
    assert Consume(s, ps0.(tag := ps0.tag.(language := Some("en")))) == ps1;
    assert Extlang(s, ps1) == (false, ps1);
  }

  /** At the dangling `a` of `en-a`, every production after language fails. */
  lemma DanglingLangtag(ps1: PState)
    requires ps1.start == 3 && !ps1.dupVariants && !ps1.dupExtensions
    ensures Script("en-a", ps1) == (false, ps1) && Region("en-a", ps1) == (false, ps1)
    ensures VariantLoop("en-a", ps1) == (true, ps1)
    ensures ExtensionLoop("en-a", ps1) == (true, ps1)
    ensures Privateuse("en-a", ps1) == (false, ps1)
  {
    DanglingTokens();
    var s := "en-a";
    assert TokenLength(s, 3) == 1;
    assert Variant(s, ps1) == (false, ps1);
    assert Extension(s, ps1) == (false, ps1);
  }

  /**
   * As written, `en-a` is accepted as the tag `en`: the extension production takes the
   * singleton `a`, finds no subtag after it and rolls back, and the position after the
   * unconsumed `a` is already the end of the input. The corrected parse rejects it.
   */
  lemma DanglingSubtagAccepted()
    ensures Parse("en-a").Some? && Parse("en-a").value.language == Some("en")
    ensures Parse("en-a").value.extensions == map[] && Parse("en-a").value.privateuse.None?
    ensures ParseIntended("en-a").None?
  {
    DanglingLower();
    assert !Rejected("en-a");
    DanglingProduction();
  }

  /**
   * As written, `x-abc-toolongtoken1` is accepted as a private use tag: the private use
   * loop stops at the thirteen-character subtag, which the value keeps, and the position
   * after that untaken token is the end of the input. The corrected parse rejects it.
   */
  lemma OverlongPrivateuseAccepted()
    ensures Parse("x-abc-toolongtoken1").Some?
    ensures Parse("x-abc-toolongtoken1").value.privateuse == Some("abc-toolongtoken1")
    ensures ParseIntended("x-abc-toolongtoken1").None?
  {
    var s := "x-abc-toolongtoken1";
    OverlongLower();
    assert !Rejected(s);
    OverlongProduction();
  }

  /** `x-abc-toolongtoken1` is already lower case and is no grandfathered tag. */
  lemma OverlongLower()
    ensures LowerASCII("x-abc-toolongtoken1") == Some("x-abc-toolongtoken1")
    ensures "x-abc-toolongtoken1" !in Grandfathered
  {
    var s := "x-abc-toolongtoken1";
    assert forall i :: 0 <= i < |s| ==> IsAlnum(s[i]) || s[i] == '-';
    assert LowerASCII(s).value == s;
  }

  /** The private use production takes `x` and `abc`, and stops at the overlong token. */
  lemma OverlongProduction()
    ensures var s := "x-abc-toolongtoken1";
            var ps0 := PState(0, NewTag(s), false, false);
            LanguageTagProduction(s) ==
            (true, ps0.(start := 6, tag := ps0.tag.(privateuse := Some("abc-toolongtoken1"))), |s|)
  {
    var s := "x-abc-toolongtoken1";
    OverlongLower();
    OverlongTokens();
    var ps0 := PState(0, NewTag(s), false, false);
    assert PrivateuseSubtags(s, 6) == 6;
    assert s[2..] == "abc-toolongtoken1";
    assert Privateuse(s, ps0) == (true, ps0.(start := 6, tag := ps0.tag.(privateuse := Some(s[2..]))));
  }

  /** The tokens of `x-abc-toolongtoken1`: `x`, `abc`, and a thirteen-character one. */
  lemma OverlongTokens()
    ensures var s := "x-abc-toolongtoken1";
            Token(s, 0) == "x" && TokenKind(s, 0) == ALPHA && NextStart(s, 0) == 2 &&
            TokenLength(s, 2) == 3 && NextStart(s, 2) == 6 &&
            TokenLength(s, 6) == 13 && NextStart(s, 6) == |s|
  {
    var s := "x-abc-toolongtoken1";
    TokenEndAt(s, 0, 1);
    TokenEndAt(s, 2, 5);
    TokenEndAt(s, 6, |s|);
    assert Token(s, 0) == "x";
  }

  /** A token ends at the first character that is not a letter or digit. */
  lemma {:induction false} TokenEndAt(s: string, p: nat, e: nat)
    requires p <= e <= |s|
    requires forall i :: p <= i < e ==> IsAlnum(s[i])
    requires e == |s| || !IsAlnum(s[e])
    ensures TokenEnd(s, p) == e
    decreases e - p
  {
    if p < e {
      TokenEndAt(s, p + 1, e);
    }
  }

  /** `en-a` is already lower case. */
  lemma DanglingLower()
    ensures LowerASCII("en-a") == Some("en-a")
  {
    var s := "en-a";
    assert forall i :: 0 <= i < |s| ==> IsAlnum(s[i]) || s[i] == '-';
    assert LowerASCII(s).value == s;
  }

  /** The productions on `en-a` succeed with the tag `en`, stopped at the `a`. */
  lemma DanglingProduction()
    ensures LanguageTagProduction("en-a") ==
            (true, PState(3, NewTag("en-a").(language := Some("en")), false, false), 4)
  {
    var s := "en-a";
    var ps0 := PState(0, NewTag(s), false, false);
    var ps1 := PState(3, NewTag(s).(language := Some("en")), false, false);
    DanglingOutsideGrandfathered();
    DanglingNotPrivateuse(ps0);
    DanglingLangtagResult(ps0, ps1);
    DanglingTokens();
  }

  lemma DanglingOutsideGrandfathered()
    ensures "en-a" !in Grandfathered
  {
  }

  /** `en-a` does not start with `x`. */
  lemma DanglingNotPrivateuse(ps0: PState)
    requires ps0 == PState(0, NewTag("en-a"), false, false)
    ensures Privateuse("en-a", ps0) == (false, ps0)
  {
    DanglingTokens();
  }

  /** langtag on `en-a` takes `en` and stops at `a`. */
  lemma DanglingLangtagResult(ps0: PState, ps1: PState)
    requires ps0 == PState(0, NewTag("en-a"), false, false)
    requires ps1 == PState(3, NewTag("en-a").(language := Some("en")), false, false)
    ensures Langtag("en-a", ps0) == (true, ps1)
  {
    DanglingLanguage(ps0, ps1);
    DanglingLangtag(ps1);
  }

  /** The corrected parse keeps the subtag shapes of the parse as written. */
  lemma IntendedShape(raw: string)
    requires ParseIntended(raw).Some?
    ensures TagShape(ParseIntended(raw).value)
  {
    IntendedNarrowsParse(raw);
    ParsedShape(raw);
  }
}
