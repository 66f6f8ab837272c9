/**
 * LanguageTag.canonicalize: the canonical form of a parsed language tag following
 * section 4.5 of RFC 5646. Registry replacements are applied, the script is
 * titlecased, a two-letter region is uppercased, the extensions are listed in
 * ascending singleton order (the `-u-` value itself canonicalized), and the private
 * use part comes last.
 */
module TagCanonicalization {
  import opened Wrappers
  import L = LanguageTags
  import C = LanguageTagCanonical

  /**
   * The subtag registry lookups canonicalization consults; `None` stands for the
   * registry's null. A grandfathered tag always has a replacement.
   */
  datatype Registry = Registry(
    grandfathered: string -> string,
    redundant: string -> Option<string>,
    language: string -> string,
    extlang: (string, string) -> Option<string>,
    region: string -> string,
    variant: (string, string) -> Option<string>)

  /**
   * `(char) (c & ~0x20)`: clears the bit that separates an ASCII lower-case letter
   * from its upper-case form.
   */
  function ClearCaseBit(c: char): (r: char)
    ensures L.IsAlpha(c) ==> L.IsUpper(r) && r as int == c as int - 32
    ensures L.IsUpper(c) ==> r == c
    ensures r as int <= c as int
  {
    var x := c as int;
    if x % 64 >= 32 then (x - 32) as char else c
  }

  /** What canonicalize relies on: its assertion on the tag, and the fields being in parsed form. */
  predicate CanonicalInput(reg: Registry, t: L.LanguageTag, order: seq<string>)
  {
    (t.grandfathered || t.language.Some? || t.privateuse.Some?) &&
    HeadInput(reg, t) &&
    Enumerates(order, t.variants) &&
    ('u' in t.extensions ==> C.UnicodeWellFormed(t.extensions['u']))
  }

  /** At most three extlangs, a script to titlecase, and a registry region of two characters to uppercase. */
  predicate HeadInput(reg: Registry, t: L.LanguageTag)
  {
    |t.extLangs| <= 3 &&
    (t.script.Some? ==> |t.script.value| > 0) &&
    (t.region.Some? && |t.region.value| == 2 ==> |reg.region(t.region.value)| >= 2)
  }

  /** The iteration order of the variant set: each variant exactly once. */
  predicate Enumerates(order: seq<string>, variants: set<string>)
  {
    |order| == |variants| && (forall v :: v in order ==> v in variants) && (forall v :: v in variants ==> v in order)
  }

  /** The language as the registry maps it, the first extlang folded in when the registry knows the pair. */
  function LanguagePart(reg: Registry, language: string, extLangs: seq<string>): string
    requires |extLangs| <= 3
  {
    var lang := reg.language(language);
    var head :=
      if |extLangs| == 0 then lang
      else match reg.extlang(lang, extLangs[0])
        case Some(e) => e
        case None => lang + "-" + extLangs[0];
    var second := if |extLangs| > 1 then head + "-" + extLangs[1] else head;
    if |extLangs| > 2 then second + "-" + extLangs[2] else second
  }

  /** The builder extended by the script, its first letter's case bit cleared. */
  function WithScript(sb: string, script: Option<string>): string
    requires script.Some? ==> |script.value| > 0
  {
    match script
    case None => sb
    case Some(s) => sb + "-" + [ClearCaseBit(s[0])] + s[1..]
  }

  /** The builder extended by the region: two letters through the registry with case bits cleared, three digits as they are. */
  function WithRegion(reg: Registry, sb: string, region: Option<string>): string
    requires region.Some? && |region.value| == 2 ==> |reg.region(region.value)| >= 2
  {
    match region
    case None => sb
    case Some(r) =>
      if |r| == 2 then
        var canonical := reg.region(r);
        sb + "-" + [ClearCaseBit(canonical[0])] + [ClearCaseBit(canonical[1])]
      else sb + "-" + r
  }

  /** Each variant either replaces the whole string built so far or is appended to it. */
  function VariantsFold(reg: Registry, sb: string, order: seq<string>): string
    decreases |order|
  {
    if order == [] then sb
    else
      var next := match reg.variant(sb, order[0])
        case Some(r) => r
        case None => sb + "-" + order[0];
      VariantsFold(reg, next, order[1..])
  }

  /** The value written for an extension: the `-u-` value is canonicalized, the others kept. */
  function ExtensionValue(singleton: char, value: string): string
  {
    if singleton == 'u' then C.CanonicalUnicode(value) else value
  }

  /** The builder extended by the extensions in the given singleton order, each as `-<singleton>-<value>`. */
  function WithExtensions(sb: string, exts: map<char, string>, singletons: seq<char>): string
    requires forall k :: k in singletons ==> k in exts
    decreases |singletons|
  {
    if singletons == [] then sb
    else
      var k := singletons[0];
      WithExtensions(sb + "-" + [k] + "-" + ExtensionValue(k, exts[k]), exts, singletons[1..])
  }

  /** Writing the first singleton of a sequence, then the rest. */
  lemma WithExtensionsStep(sb: string, exts: map<char, string>, k: char, tail: seq<char>)
    requires k in exts && forall j :: j in tail ==> j in exts
    ensures WithExtensions(sb, exts, [k] + tail) ==
            WithExtensions(sb + "-" + [k] + "-" + ExtensionValue(k, exts[k]), exts, tail)
  {
    assert ([k] + tail)[1..] == tail;
  }

  /** `k` is the least singleton of `keys`. */
  predicate IsLeast(k: char, keys: set<char>)
  {
    k in keys && forall j :: j in keys ==> k <= j
  }

  /** Every non-empty set of singletons has a least element. */
  lemma {:induction false} MinExists(keys: set<char>)
    requires keys != {}
    ensures exists k :: IsLeast(k, keys)
    decreases |keys|
  {
    var x :| x in keys;
    var others := keys - {x};
    if others == {} {
      forall j | j in keys ensures x <= j {
        assert j !in others;
      }
      assert IsLeast(x, keys);
    } else {
      MinExists(others);
      var m :| IsLeast(m, others);
      var least := if x < m then x else m;
      forall j | j in keys ensures least <= j {
        if j != x {
          assert j in others;
        }
      }
      assert IsLeast(least, keys);
    }
  }

  ghost function MinSingleton(keys: set<char>): (k: char)
    requires keys != {}
    ensures IsLeast(k, keys)
  {
    MinExists(keys);
    var k :| IsLeast(k, keys);
    k
  }

  /** The order a TreeMap keyed by singleton yields its entries in: ascending, each key once. */
  ghost function SingletonOrder(keys: set<char>): (r: seq<char>)
    ensures |r| == |keys|
    ensures forall k :: k in r <==> k in keys
    ensures forall i, j :: 0 <= i < j < |r| ==> r[i] < r[j]
    decreases |keys|
  {
    if keys == {} then []
    else
      var m := MinSingleton(keys);
      var tail := SingletonOrder(keys - {m});
      assert forall j :: 0 <= j < |tail| ==> m < tail[j];
      assert forall k :: k in keys <==> k == m || k in keys - {m};
      [m] + tail
  }

  /** The least remaining singleton is the next one the order yields. */
  lemma SingletonOrderFirst(keys: set<char>, m: char)
    requires IsLeast(m, keys)
    ensures SingletonOrder(keys) == [m] + SingletonOrder(keys - {m})
  {
    var n := MinSingleton(keys);
    assert m <= n && n <= m;
  }

  function WithPrivateuse(sb: string, privateuse: Option<string>): string
  {
    if privateuse.Some? then sb + "-x-" + privateuse.value else sb
  }

  /** The canonical form of a tag, for a given iteration order of its variant set. */
  ghost function Canonical(reg: Registry, t: L.LanguageTag, order: seq<string>): string
    requires CanonicalInput(reg, t, order)
  {
    if t.grandfathered then reg.grandfathered(t.input)
    else if t.language.None? then "x-" + t.privateuse.value
    else if reg.redundant(t.input).Some? then reg.redundant(t.input).value
    else
      var head := WithRegion(reg, WithScript(LanguagePart(reg, t.language.value, t.extLangs), t.script), t.region);
      var extended := WithExtensions(VariantsFold(reg, head, order), t.extensions, SingletonOrder(t.extensions.Keys));
      WithPrivateuse(extended, t.privateuse)
  }

  /**
   * canonicalize: builds the canonical form in a string builder, subtag kind by
   * subtag kind, visiting the variants in the set's order and the extensions from
   * the least singleton up.
   */
  method Canonicalize(reg: Registry, t: L.LanguageTag, order: seq<string>) returns (r: string)
    requires CanonicalInput(reg, t, order)
    ensures r == Canonical(reg, t, order)
  {
    if t.grandfathered {
      return reg.grandfathered(t.input);
    }
    if t.language.None? {
      return "x-" + t.privateuse.value;
    }
    var redundant := reg.redundant(t.input);
    if redundant.Some? {
      return redundant.value;
    }
    var sb := Head(reg, t);
    sb := Variants(reg, sb, order);
    sb := Extensions(sb, t.extensions);
    if t.privateuse.Some? {
      sb := sb + "-x-" + t.privateuse.value;
    }
    return sb;
  }

  /** The language, extlangs, script and region, each in canonical form. */
  method Head(reg: Registry, t: L.LanguageTag) returns (sb: string)
    requires HeadInput(reg, t) && t.language.Some?
    ensures sb == WithRegion(reg, WithScript(LanguagePart(reg, t.language.value, t.extLangs), t.script), t.region)
  {
    var lang := reg.language(t.language.value);
    sb := lang;
    if |t.extLangs| > 0 {
      var ext := reg.extlang(lang, t.extLangs[0]);
      if ext.Some? {
        sb := ext.value;
      } else {
        sb := sb + "-" + t.extLangs[0];
      }
    }
    if |t.extLangs| > 1 {
      sb := sb + "-" + t.extLangs[1];
    }
    if |t.extLangs| > 2 {
      sb := sb + "-" + t.extLangs[2];
    }
    if t.script.Some? {
      var script := t.script.value;
      sb := sb + "-" + [ClearCaseBit(script[0])] + script[1..];
    }
    if t.region.Some? {
      var region := t.region.value;
      if |region| == 2 {
        var canonical := reg.region(region);
        sb := sb + "-" + [ClearCaseBit(canonical[0])] + [ClearCaseBit(canonical[1])];
      } else {
        sb := sb + "-" + region;
      }
    }
  }

  /** The variants in the set's iteration order: a registry match replaces the whole string. */
  method Variants(reg: Registry, sb0: string, order: seq<string>) returns (sb: string)
    ensures sb == VariantsFold(reg, sb0, order)
  {
    sb := sb0;
    var i := 0;
    while i < |order|
      invariant 0 <= i <= |order|
      invariant VariantsFold(reg, sb, order[i..]) == VariantsFold(reg, sb0, order)
    {
      assert order[i..][1..] == order[i + 1..];
      var variant := order[i];
      var replacement := reg.variant(sb, variant);
      if replacement.Some? {
        sb := replacement.value;
      } else {
        sb := sb + "-" + variant;
      }
      i := i + 1;
    }
  }

  /**
   * The extensions in ascending singleton order, as a TreeMap's entry set yields
   * them: each turn takes the least singleton not yet written.
   */
  method Extensions(sb0: string, exts: map<char, string>) returns (sb: string)
    requires 'u' in exts ==> C.UnicodeWellFormed(exts['u'])
    ensures sb == WithExtensions(sb0, exts, SingletonOrder(exts.Keys))
  {
    sb := sb0;
    var rest := exts.Keys;
    while rest != {}
      invariant rest <= exts.Keys
      invariant WithExtensions(sb, exts, SingletonOrder(rest)) == WithExtensions(sb0, exts, SingletonOrder(exts.Keys))
      decreases |rest|
    {
      MinExists(rest);
      var singleton :| IsLeast(singleton, rest);
      SingletonOrderFirst(rest, singleton);
      WithExtensionsStep(sb, exts, singleton, SingletonOrder(rest - {singleton}));
      var value := exts[singleton];
      if singleton == 'u' {
        value := C.CanonicalizeUnicodeExtension(value);
      }
      sb := sb + "-" + [singleton] + "-" + value;
      rest := rest - {singleton};
    }
  }

  // ---------------------------------------------------------------------------
  // Properties of the canonical form
  // ---------------------------------------------------------------------------

  /** A tag with only a private use part canonicalizes to `x-` and that part. */
  lemma PrivateuseOnly(reg: Registry, t: L.LanguageTag, order: seq<string>)
    requires CanonicalInput(reg, t, order) && !t.grandfathered && t.language.None?
    ensures Canonical(reg, t, order) == "x-" + t.privateuse.value
  {
  }

  /**
   * Unless the registry replaces the whole tag, the private use part comes last,
   * after `-x-`.
   */
  lemma PrivateuseLast(reg: Registry, t: L.LanguageTag, order: seq<string>)
    requires CanonicalInput(reg, t, order) && !t.grandfathered && t.language.Some?
    requires reg.redundant(t.input).None? && t.privateuse.Some?
    ensures var r, p := Canonical(reg, t, order), t.privateuse.value;
            |r| >= |p| + 3 && r[|r| - |p| - 3..] == "-x-" + p
  {
    var r, p := Canonical(reg, t, order), t.privateuse.value;
    var prefix := r[..|r| - |p| - 3];
    assert r == prefix + ("-x-" + p);
  }

  /** A parsed script, four lower-case letters, is written titlecased after a separator. */
  lemma ScriptTitlecased(sb: string, script: string)
    requires |script| == 4 && L.AllAlpha(script)
    ensures var w := WithScript(sb, Some(script));
            |w| == |sb| + 5 && w[..|sb|] == sb && w[|sb|] == '-' &&
            L.IsUpper(w[|sb| + 1]) && w[|sb| + 1] as int == script[0] as int - 32 && w[|sb| + 2..] == script[1..]
  {
    assert L.IsAlpha(script[0]);
    var w := WithScript(sb, Some(script));
    assert w == sb + ("-" + [ClearCaseBit(script[0])] + script[1..]);
  }

  /**
   * A two-letter region is written as the registry's region with both letters in
   * upper case, whichever case the registry gives them in.
   */
  lemma RegionUppercased(reg: Registry, sb: string, region: string)
    requires |region| == 2 && |reg.region(region)| >= 2
    requires forall i :: 0 <= i < 2 ==> L.IsAlpha(reg.region(region)[i]) || L.IsUpper(reg.region(region)[i])
    ensures var w := WithRegion(reg, sb, Some(region));
            |w| == |sb| + 3 && w[..|sb|] == sb && w[|sb|] == '-' && L.IsUpper(w[|sb| + 1]) && L.IsUpper(w[|sb| + 2])
  {
    var canonical := reg.region(region);
    assert L.IsAlpha(canonical[0]) || L.IsUpper(canonical[0]);
    assert L.IsAlpha(canonical[1]) || L.IsUpper(canonical[1]);
    var w := WithRegion(reg, sb, Some(region));
    assert w == sb + ("-" + [ClearCaseBit(canonical[0])] + [ClearCaseBit(canonical[1])]);
  }

  // ---------------------------------------------------------------------------
  // What the parser hands over meets the assumptions of canonicalization.

  /** In lower-cased input a token ends exactly where indexOf finds the next `-`. */
  lemma {:induction false} TokenEndIsIndexOfDash(s: string, a: nat)
    requires L.ValidInput(s) && a <= |s|
    ensures L.TokenEnd(s, a) == C.IndexOfDash(s, a)
    decreases |s| - a
  {
    if a < |s| && L.IsAlnum(s[a]) {
      TokenEndIsIndexOfDash(s, a + 1);
    }
  }

  /** Every piece of a run of tokens of 2 to 8 alphanumerics has at least two characters. */
  lemma {:induction false} RunSubtagsLong(s: string, a: nat)
    requires L.ValidInput(s) && a <= |s| && L.RunShape(s, a, |s|, 2, 8)
    ensures var subs := C.SubtagsFrom(s, a);
            forall j :: 0 <= j < |subs| ==> |subs[j]| >= 2
    decreases |s| - a
  {
    var e := L.TokenEnd(s, a);
    TokenEndIsIndexOfDash(s, a);
    var subs := C.SubtagsFrom(s, a);
    assert subs == [s[a..e]] + C.SubtagsFrom(s, e + 1);
    if e < |s| {
      RunSubtagsLong(s, e + 1);
    } else {
      assert C.SubtagsFrom(s, e + 1) == [];
    }
  }

  /** An extension value the parser stores is well formed for the `-u-` reordering. */
  lemma ValueShapeWellFormed(v: string)
    requires L.ValueShape(v, 2, 8)
    ensures C.UnicodeWellFormed(v)
  {
    RunSubtagsLong(v, 0);
    assert C.Subtags(v) == C.SubtagsFrom(v, 0);
  }

  /** Every two-letter region maps to a region of at least two characters. */
  ghost predicate RegionsLong(reg: Registry)
  {
    forall r: string :: |r| == 2 ==> |reg.region(r)| >= 2
  }

  /**
   * A tag `parse` accepts meets the assumptions of canonicalization, given the
   * iteration order of its variants and a registry whose regions are not shortened.
   */
  lemma ParsedCanonicalInput(reg: Registry, raw: string, order: seq<string>)
    requires L.Parse(raw).Some? && Enumerates(order, L.Parse(raw).value.variants) && RegionsLong(reg)
    ensures CanonicalInput(reg, L.Parse(raw).value, order)
  {
    var t := L.Parse(raw).value;
    L.ParsedShape(raw);
    L.ParsedHasSubject(raw);
    L.ParsedExtensionsShape(raw);
    if 'u' in t.extensions {
      ValueShapeWellFormed(t.extensions['u']);
    }
  }

  /** A registry that knows no replacement and keeps every subtag as it is. */
  function PlainRegistry(): Registry
  {
    Registry(s => s, s => None, s => s, (l, e) => None, r => r, (sb, v) => None)
  }

  /**
   * `cmn-hans-cn-u-ca-t-ca-x-t-u` canonicalizes to `cmn-Hans-CN-t-ca-u-ca-x-t-u`:
   * the script is titlecased, the region uppercased, and the `-t-` extension moves
   * before the `-u-` extension while the private use part stays last.
   */
  lemma ReorderedExtensions()
    ensures var t := L.LanguageTag("cmn-hans-cn-u-ca-t-ca-x-t-u", false, Some("cmn"), [], Some("hans"),
                                   Some("cn"), {}, map['u' := "ca", 't' := "ca"], Some("t-u"));
            CanonicalInput(PlainRegistry(), t, []) &&
            Canonical(PlainRegistry(), t, []) == "cmn-Hans-CN-t-ca-u-ca-x-t-u"
  {
    var exts := map['u' := "ca", 't' := "ca"];
    var t := L.LanguageTag("cmn-hans-cn-u-ca-t-ca-x-t-u", false, Some("cmn"), [], Some("hans"),
                           Some("cn"), {}, exts, Some("t-u"));
    var reg := PlainRegistry();
    UnicodeSingleKey();
    assert HeadInput(reg, t);
    assert CanonicalInput(reg, t, []);
    ExampleHead();
    ExampleOrder(exts);
    ExampleExtensions(exts);
    var extended := WithExtensions(VariantsFold(reg, "cmn-Hans-CN", []), exts, ['t', 'u']);
    assert extended == "cmn-Hans-CN-t-ca-u-ca";
    assert Canonical(reg, t, []) == WithPrivateuse(extended, Some("t-u"));
    ExampleText();
  }

  lemma ExampleText()
    ensures WithPrivateuse("cmn-Hans-CN-t-ca-u-ca", Some("t-u")) == "cmn-Hans-CN-t-ca-u-ca-x-t-u"
  {
  }

  lemma ExampleHead()
    ensures WithRegion(PlainRegistry(), WithScript(LanguagePart(PlainRegistry(), "cmn", []), Some("hans")), Some("cn")) ==
            "cmn-Hans-CN"
  {
    assert ClearCaseBit('h') == 'H' && ClearCaseBit('c') == 'C' && ClearCaseBit('n') == 'N';
    assert "hans"[1..] == "ans";
  }

  lemma ExampleOrder(exts: map<char, string>)
    requires exts == map['u' := "ca", 't' := "ca"]
    ensures SingletonOrder(exts.Keys) == ['t', 'u']
  {
    assert exts.Keys == {'t', 'u'};
    var order := SingletonOrder(exts.Keys);
    assert order[0] in exts.Keys && order[1] in exts.Keys;
  }

  lemma ExampleExtensions(exts: map<char, string>)
    requires exts == map['u' := "ca", 't' := "ca"] && C.CanonicalUnicode("ca") == "ca"
    ensures WithExtensions("cmn-Hans-CN", exts, ['t', 'u']) == "cmn-Hans-CN-t-ca-u-ca"
  {
    WithExtensionsStep("cmn-Hans-CN", exts, 't', ['u']);
    WithExtensionsStep("cmn-Hans-CN-t-ca", exts, 'u', []);
    assert ['t'] + ['u'] == ['t', 'u'];
  }

  /** A `-u-` value of one two-letter key is already canonical. */
  lemma UnicodeSingleKey()
    ensures C.UnicodeWellFormed("ca") && C.CanonicalUnicode("ca") == "ca"
  {
    assert C.IndexOfDash("ca", 0) == 2;
    C.SubtagsFromStep("ca", 0);
    assert "ca"[0..2] == "ca";
    assert C.Subtags("ca") == ["ca"];
    assert C.LongPrefix(["ca"]) == 0;
    assert C.Attributes("ca") == [] && C.Keywords("ca") == ["ca"];
    assert C.SortStrings(["ca"]) == ["ca"];
  }
}
