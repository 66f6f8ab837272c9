// The language-tag parser as an object: it holds the lower-cased input, the current
// token (its kind, start and length), the position after it, the duplicate flags and
// the tag under construction, and its productions advance the token in place. Each
// method is proved to have the meaning of the function of the same name in
// `LanguageTags`, applied to the parse state the object holds.

module LanguageTagParsing {
  import opened Wrappers
  import L = LanguageTags

  /**
   * toLowerASCIIOrNull: a first scan up to the first upper-case letter (the input is
   * returned as it is when there is none), then a copy in which the rest is lowered;
   * either scan gives up on a character that is not a letter, a digit or `-`.
   */
  method ToLowerASCIIOrNull(s: string) returns (r: Option<string>)
    ensures r == L.LowerASCII(s)
  {
    var i := 0;
    var len := |s|;
    label lower: {
      while i < len
        invariant 0 <= i <= len
        invariant forall k :: 0 <= k < i ==> !L.IsUpper(s[k]) && (L.IsAlnum(s[k]) || s[k] == '-')
      {
        var c := s[i];
        if L.IsUpper(c) {
          break lower;
        } else if !(L.IsAlnum(c) || c == '-') {
          return None;
        }
        i := i + 1;
      }
      assert L.LowerASCII(s).value == s;
      return Some(s);
    }
    var ca := new char[len](k requires 0 <= k < len => s[k]);
    while i < len
      invariant 0 <= i <= len
      invariant forall k :: 0 <= k < i ==> ca[k] == L.ToLower(s[k]) && (L.IsUpper(s[k]) || L.IsAlnum(s[k]) || s[k] == '-')
      invariant forall k :: i <= k < len ==> ca[k] == s[k]
    {
      var c := s[i];
      if L.IsUpper(c) {
        ca[i] := ('a' as int + (c as int - 'A' as int)) as char;
      } else if !(L.IsAlnum(c) || c == '-') {
        return None;
      }
      i := i + 1;
    }
    assert ca[..] == L.LowerASCII(s).value;
    return Some(ca[..]);
  }

  /** What the scan of a token of `len` characters at `p` leaves in the token fields. */
  lemma TokenScanned(s: string, p: nat, len: nat, tok: bv2)
    requires p + len <= |s|
    requires forall i :: p <= i < p + len ==> L.IsAlnum(s[i])
    requires p + len == |s| || !L.IsAlnum(s[p + len])
    requires tok == L.Kind(s[p..p + len])
    ensures tok == L.TokenKind(s, p) && len == L.TokenLength(s, p)
    ensures L.NextStart(s, p) == if p + len < |s| then p + len + 1 else |s|
  {
    L.TokenEndAt(s, p, p + len);
  }

  /** The kind of a token grows by the kind of the character appended to it. */
  lemma KindStep(s: string, a: nat, b: nat)
    requires a <= b < |s|
    ensures L.Kind(s[a..b + 1]) == L.Kind(s[a..b]) | L.CharKind(s[b])
  {
    assert s[a..b + 1][..b - a] == s[a..b];
  }

  class LanguageTagParser {
    /** The raw input the parser was made for. */
    ghost const raw: string
    /** The lower-cased input, or nothing when the raw input holds an invalid character. */
    const input: Option<string>
    const length: nat
    var pos: nat
    var token: bv2
    var tokenStart: nat
    var tokenLength: nat
    var duplicateVariants: bool
    var duplicateExtensions: bool
    var tag: L.LanguageTag

    /** The current token is the one at `tokenStart`, and `pos` is the position after it. */
    ghost predicate Valid()
      reads this
    {
      input.Some? && length == |input.value| && tokenStart <= length &&
      token == L.TokenKind(input.value, tokenStart) &&
      tokenLength == L.TokenLength(input.value, tokenStart) &&
      pos == L.NextStart(input.value, tokenStart)
    }

    /** The parse state the object holds. */
    ghost function State(): L.PState
      reads this
    {
      L.PState(tokenStart, tag, duplicateVariants, duplicateExtensions)
    }

    constructor (raw: string)
      ensures this.raw == raw && input == L.LowerASCII(raw) && length == |raw|
      ensures !duplicateVariants && !duplicateExtensions
    {
      this.raw := raw;
      var lowered := ToLowerASCIIOrNull(raw);
      input := lowered;
      length := |raw|;
      pos := 0;
      token := L.NONE;
      tokenStart := 0;
      tokenLength := 0;
      duplicateVariants := false;
      duplicateExtensions := false;
      tag := L.NewTag("");
    }

    /**
     * parse: the tag, when the input passes the up-front checks, one of the three
     * alternatives succeeds and the position is at the end of the input.
     */
    method Parse() returns (r: Option<L.LanguageTag>)
      requires input == L.LowerASCII(raw) && length == |raw|
      requires !duplicateVariants && !duplicateExtensions
      modifies this
      ensures r == L.Parse(raw)
    {
      L.LowerASCIIValid(raw);
      if input.None? || length == 0 || input.value[length - 1] == '-' {
        return None;
      }
      tag := L.NewTag(input.value);
      Rollback(0);
      var ok := LanguageTag();
      if ok && pos >= length {
        return Some(tag);
      }
      return None;
    }

    method Rollback(p: nat)
      requires input.Some? && length == |input.value| && p <= length
      modifies this
      ensures Valid() && tokenStart == p
      ensures tag == old(tag) && duplicateVariants == old(duplicateVariants) &&
              duplicateExtensions == old(duplicateExtensions)
    {
      pos := p;
      Next();
    }

    method Consume()
      requires Valid()
      modifies this
      ensures Valid() && tokenStart == L.NextStart(input.value, old(tokenStart))
      ensures tag == old(tag) && duplicateVariants == old(duplicateVariants) &&
              duplicateExtensions == old(duplicateExtensions)
    {
      Next();
    }

    /** Scans the token at `pos`: its kind, start and length, and moves past its separator. */
    method Next()
      requires input.Some? && length == |input.value| && pos <= length
      modifies this
      ensures Valid() && tokenStart == old(pos)
      ensures tag == old(tag) && duplicateVariants == old(duplicateVariants) &&
              duplicateExtensions == old(duplicateExtensions)
    {
      var s := input.value;
      var tok := L.NONE;
      var start := pos;
      var len := 0;
      while pos < length
        invariant start <= pos <= length && pos == start + len
        invariant forall i :: start <= i < pos ==> L.IsAlnum(s[i])
        invariant tok == L.Kind(s[start..pos])
        invariant tag == old(tag) && duplicateVariants == old(duplicateVariants) &&
                  duplicateExtensions == old(duplicateExtensions)
        decreases length - pos
      {
        var c := s[pos];
        KindStep(s, start, pos);
        pos := pos + 1;
        if L.IsAlpha(c) {
          tok := tok | L.ALPHA;
        } else if L.IsDigit(c) {
          tok := tok | L.DIGIT;
        } else {
          break;
        }
        len := len + 1;
      }
      TokenScanned(s, start, len, tok);
      token := tok;
      tokenStart := start;
      tokenLength := len;
    }

    function TokenString(): (t: string)
      reads this
      requires Valid()
      ensures t == L.Token(input.value, tokenStart)
    {
      input.value[tokenStart..tokenStart + tokenLength]
    }

    function Alphanum(): (b: bool)
      reads this
      requires Valid()
      ensures b == L.Alphanum(input.value, tokenStart)
    {
      token & L.ALPHA_DIGIT != L.NONE
    }

    /** Language-Tag = grandfathered / privateuse / langtag, in that order. */
    method LanguageTag() returns (b: bool)
      requires Valid() && tokenStart == 0 && tag == L.NewTag(input.value)
      requires !duplicateVariants && !duplicateExtensions
      modifies this
      ensures (b, State(), pos) == L.LanguageTagProduction(input.value)
    {
      b := Grandfathered();
      if b {
        return;
      }
      b := Privateuse();
      if b {
        return;
      }
      b := Langtag();
    }

    /** A grandfathered tag is taken whole: the position moves to the end of the input. */
    method Grandfathered() returns (b: bool)
      requires input.Some? && length == |input.value|
      modifies this
      ensures b <==> input.value in L.Grandfathered
      ensures b ==> tag == old(tag).(grandfathered := true) && pos == length &&
                    tokenStart == old(tokenStart) && duplicateVariants == old(duplicateVariants) &&
                    duplicateExtensions == old(duplicateExtensions)
      ensures !b ==> unchanged(this)
    {
      if input.value in L.Grandfathered {
        tag := tag.(grandfathered := true);
        pos := length;
        return true;
      }
      return false;
    }

    method Langtag() returns (b: bool)
      requires Valid()
      modifies this
      ensures Valid() && (b, State()) == L.Langtag(input.value, old(State()))
    {
      var ok := Language();
      if !ok {
        return false;
      }
      var _ := Script();
      var _ := Region();
      ok := VariantLoop();
      if !ok {
        return false;
      }
      ok := ExtensionLoop();
      if !ok {
        return false;
      }
      var _ := Privateuse();
      return true;
    }

    /** `while (variant()) { if (duplicateVariants) return false; }` */
    method VariantLoop() returns (b: bool)
      requires Valid()
      modifies this
      ensures Valid() && (b, State()) == L.VariantLoop(input.value, old(State()))
    {
      var s := input.value;
      ghost var ps0 := State();
      while true
        invariant Valid()
        invariant L.VariantLoop(s, State()) == L.VariantLoop(s, ps0)
        decreases length - tokenStart
      {
        var v := Variant();
        if !v {
          return true;
        }
        if duplicateVariants {
          return false;
        }
      }
    }

    /** `while (extension()) { if (duplicateExtensions) return false; }` */
    method ExtensionLoop() returns (b: bool)
      requires Valid()
      modifies this
      ensures Valid() && (b, State()) == L.ExtensionLoop(input.value, old(State()))
    {
      var s := input.value;
      ghost var ps0 := State();
      while true
        invariant Valid()
        invariant L.ExtensionLoop(s, State()) == L.ExtensionLoop(s, ps0)
        decreases length - tokenStart
      {
        var e := Extension();
        if !e {
          return true;
        }
        if duplicateExtensions {
          return false;
        }
      }
    }

    method Language() returns (b: bool)
      requires Valid()
      modifies this
      ensures Valid() && (b, State()) == L.Language(input.value, old(State()))
    {
      if token == L.ALPHA {
        if 2 <= tokenLength <= 3 {
          tag := tag.(language := Some(TokenString()));
          Consume();
          var _ := Extlang();
          return true;
        } else if 4 <= tokenLength <= 8 {
          tag := tag.(language := Some(TokenString()));
          Consume();
          return true;
        }
      }
      return false;
    }

    method Extlang() returns (b: bool)
      requires Valid()
      modifies this
      ensures Valid() && (b, State()) == L.Extlang(input.value, old(State()))
    {
      if token == L.ALPHA && tokenLength == 3 {
        var e1 := TokenString();
        tag := tag.(extLangs := [e1]);
        Consume();
        if token == L.ALPHA && tokenLength == 3 {
          var e2 := TokenString();
          tag := tag.(extLangs := [e1, e2]);
          Consume();
          if token == L.ALPHA && tokenLength == 3 {
            var e3 := TokenString();
            tag := tag.(extLangs := [e1, e2, e3]);
            Consume();
          }
        }
        return true;
      }
      return false;
    }

    method Script() returns (b: bool)
      requires Valid()
      modifies this
      ensures Valid() && (b, State()) == L.Script(input.value, old(State()))
    {
      if token == L.ALPHA && tokenLength == 4 {
        tag := tag.(script := Some(TokenString()));
        Consume();
        return true;
      }
      return false;
    }

    method Region() returns (b: bool)
      requires Valid()
      modifies this
      ensures Valid() && (b, State()) == L.Region(input.value, old(State()))
    {
      if (token == L.ALPHA && tokenLength == 2) || (token == L.DIGIT && tokenLength == 3) {
        tag := tag.(region := Some(TokenString()));
        Consume();
        return true;
      }
      return false;
    }

    method Variant() returns (b: bool)
      requires Valid()
      modifies this
      ensures Valid() && (b, State()) == L.Variant(input.value, old(State()))
    {
      if Alphanum() && 5 <= tokenLength <= 8 {
        StoreVariant(TokenString());
        Consume();
        return true;
      }
      if Alphanum() && tokenLength == 4 && L.IsDigit(input.value[tokenStart]) {
        StoreVariant(TokenString());
        Consume();
        return true;
      }
      return false;
    }

    method Extension() returns (b: bool)
      requires Valid()
      modifies this
      ensures Valid() && (b, State()) == L.Extension(input.value, old(State()))
    {
      var s := input.value;
      var saved := tokenStart;
      if Alphanum() && tokenLength == 1 && s[tokenStart] != 'x' {
        var singleton := TokenString();
        Consume();
        b := ExtensionValue(singleton, saved);
      } else {
        b := false;
      }
    }

    /** An extension after its singleton, which starts at `saved`: its value, or a rollback. */
    method ExtensionValue(singleton: string, saved: nat) returns (b: bool)
      requires Valid() && saved < length
      requires L.Alphanum(input.value, saved) && L.TokenLength(input.value, saved) == 1
      requires input.value[saved] != 'x' && singleton == L.Token(input.value, saved)
      requires tokenStart == L.NextStart(input.value, saved)
      modifies this
      ensures Valid() && (b, State()) == L.Extension(input.value, old(State()).(start := saved))
    {
      var s := input.value;
      ghost var ps := State().(start := saved);
      assert singleton[0] == s[saved];
      if Alphanum() && 2 <= tokenLength <= 8 {
        var value := ExtensionText();
        StoreExtension(singleton, value);
        L.ExtensionTaken(s, ps);
        return true;
      }
      Rollback(saved);
      return false;
    }

    /** The value of an extension: its first subtag and those the loop takes after it. */
    method ExtensionText() returns (value: string)
      requires Valid() && Alphanum() && 2 <= tokenLength <= 8
      modifies this
      ensures Valid() && tag == old(tag)
      ensures duplicateVariants == old(duplicateVariants) && duplicateExtensions == old(duplicateExtensions)
      ensures (value, tokenStart) == L.ExtensionText(input.value, old(tokenStart))
    {
      var s := input.value;
      var startExtension := tokenStart;
      var len := tokenLength;
      Consume();
      len := ExtensionSubtags(startExtension, len);
      value := s[startExtension..startExtension + len];
    }

    /** The loop over the subtags after the first: `len` grows by each subtag and its separator. */
    method ExtensionSubtags(startExtension: nat, len0: nat) returns (len: nat)
      requires Valid()
      requires startExtension + len0 + 1 == tokenStart || startExtension + len0 == tokenStart == length
      modifies this
      ensures Valid() && tag == old(tag)
      ensures duplicateVariants == old(duplicateVariants) && duplicateExtensions == old(duplicateExtensions)
      ensures (len, tokenStart) == L.ExtensionSubtags(input.value, old(tokenStart), startExtension, len0)
    {
      var s := input.value;
      len := len0;
      ghost var result := L.ExtensionSubtags(s, tokenStart, startExtension, len0);
      while Alphanum() && 2 <= tokenLength <= 8
        invariant Valid() && tag == old(tag)
        invariant duplicateVariants == old(duplicateVariants) && duplicateExtensions == old(duplicateExtensions)
        invariant startExtension + len + 1 == tokenStart || startExtension + len == tokenStart == |s|
        invariant L.ExtensionSubtags(s, tokenStart, startExtension, len) == result
        decreases length - tokenStart
      {
        ghost var p, before := tokenStart, len;
        len := len + tokenLength + 1;
        Consume();
        L.ExtensionSubtagsTurn(s, p, startExtension, before, tokenStart, len);
      }
    }

    method Privateuse() returns (b: bool)
      requires Valid()
      modifies this
      ensures Valid() && (b, State()) == L.Privateuse(input.value, old(State()))
    {
      var s := input.value;
      var saved := tokenStart;
      if token == L.ALPHA && tokenLength == 1 && s[tokenStart] == 'x' {
        Consume();
        if Alphanum() && 1 <= tokenLength <= 8 {
          var startPrivateuse := tokenStart;
          Consume();
          PrivateuseSubtags();
          tag := tag.(privateuse := Some(s[startPrivateuse..]));
          return true;
        }
        Rollback(saved);
      }
      return false;
    }

    /** The loop over the private use subtags after the first. */
    method PrivateuseSubtags()
      requires Valid()
      modifies this
      ensures Valid() && tokenStart == L.PrivateuseSubtags(input.value, old(tokenStart))
      ensures tag == old(tag) && duplicateVariants == old(duplicateVariants) &&
              duplicateExtensions == old(duplicateExtensions)
    {
      var s := input.value;
      ghost var p0 := tokenStart;
      while Alphanum() && 1 <= tokenLength <= 8
        invariant Valid() && tag == old(tag)
        invariant duplicateVariants == old(duplicateVariants) && duplicateExtensions == old(duplicateExtensions)
        invariant L.PrivateuseSubtags(s, tokenStart) == L.PrivateuseSubtags(s, p0)
        decreases length - tokenStart
      {
        ghost var p := tokenStart;
        Consume();
        L.PrivateuseSubtagsTurn(s, p, tokenStart);
      }
    }

    /** storeVariant: adding a variant already present raises the duplicate flag. */
    method StoreVariant(variant: string)
      modifies this
      ensures State() == L.StoreVariant(old(State()), variant)
      ensures pos == old(pos) && token == old(token) && tokenLength == old(tokenLength)
    {
      duplicateVariants := duplicateVariants || variant in tag.variants;
      tag := tag.(variants := tag.variants + {variant});
    }

    /** storeExtension: putting a singleton already present raises the duplicate flag. */
    method StoreExtension(singleton: string, value: string)
      requires |singleton| == 1
      modifies this
      ensures State() == L.StoreExtension(old(State()), singleton[0], value)
      ensures pos == old(pos) && token == old(token) && tokenLength == old(tokenLength)
    {
      duplicateExtensions := duplicateExtensions || singleton[0] in tag.extensions;
      tag := tag.(extensions := tag.extensions[singleton[0] := value]);
    }
  }
}
