/**
 * The string handling of discovery: node addresses derived from serial numbers, the
 * model prefix that decides whether an inverter node is created, and the sanitised
 * site name.
 */
module Discovery {

  /** Node addresses are cut to this many characters. */
  const AddressLength: nat := 14

  /** The inverter models the plug-in maps (all single-phase). */
  const SinglePhase: seq<string> := [
    "SE3000", "SE3000A", "SE3800", "SE3800A", "SE3800H", "SE5000", "SE6000", "SE6000H",
    "SE7600", "SE7600A", "SE10000", "SE11400", "SE5000H", "SE7600H", "SE10000H", "SE10000A"]

  predicate IsUpper(c: char) {
    'A' <= c <= 'Z'
  }

  /** ASCII lower-casing of one character. */
  function LowerChar(c: char): (l: char)
    ensures !IsUpper(l)
    ensures !IsUpper(c) ==> l == c
    ensures c != '-' ==> l != '-'
  {
    if IsUpper(c) then (c as int + 32) as char else c
  }

  /** `s.replace('-', '')`. */
  function RemoveDashes(s: string): (r: string)
    ensures '-' !in r
  {
    if s == [] then []
    else if s[0] == '-' then RemoveDashes(s[1..]) else [s[0]] + RemoveDashes(s[1..])
  }

  /** Removing the dashes keeps every other character, as often as it occurs. */
  lemma {:induction false} RemoveDashesKeepsOthers(s: string)
    ensures multiset(RemoveDashes(s)) == multiset(s)['-' := 0]
  {
    if s != [] {
      assert s == [s[0]] + s[1..];
      RemoveDashesKeepsOthers(s[1..]);
    }
  }

  /** `s.lower()` on ASCII letters. */
  function Lower(s: string): (r: string)
    ensures |r| == |s|
    ensures forall i :: 0 <= i < |s| ==> r[i] == LowerChar(s[i])
  {
    if s == [] then [] else [LowerChar(s[0])] + Lower(s[1..])
  }

  function Min(a: int, b: int): int {
    if a < b then a else b
  }

  /** `serial.replace('-', '').lower()[:14]`: the address a battery or inverter node gets. */
  function NodeAddress(serial: string): (a: string)
    ensures |a| == Min(AddressLength, |RemoveDashes(serial)|)
  {
    var lowered := Lower(RemoveDashes(serial));
    if |lowered| <= AddressLength then lowered else lowered[..AddressLength]
  }

  /** An address is the serial without dashes, lower-cased, cut to 14 characters. */
  lemma NodeAddressShape(serial: string)
    ensures var a := NodeAddress(serial);
      && (forall i :: 0 <= i < |a| ==> a[i] == LowerChar(RemoveDashes(serial)[i]))
      && '-' !in a
      && (forall i :: 0 <= i < |a| ==> !IsUpper(a[i]))
  {
    var a := NodeAddress(serial);
    assert forall i :: 0 <= i < |a| ==> a[i] == LowerChar(RemoveDashes(serial)[i]) && RemoveDashes(serial)[i] != '-';
  }

  /** Removing dashes from a string without any changes nothing. */
  lemma {:induction false} RemoveDashesNoDash(s: string)
    requires '-' !in s
    ensures RemoveDashes(s) == s
  {
    if s != [] {
      assert s[0] != '-';
      assert forall c :: c in s[1..] ==> c in s;
      RemoveDashesNoDash(s[1..]);
    }
  }

  /** An address is its own address: deriving it again changes nothing. */
  lemma NodeAddressIdempotent(serial: string)
    ensures NodeAddress(NodeAddress(serial)) == NodeAddress(serial)
  {
    var a := NodeAddress(serial);
    NodeAddressShape(serial);
    RemoveDashesNoDash(a);
    NodeAddressShape(a);
    assert forall i :: 0 <= i < |a| ==> LowerChar(a[i]) == a[i];
  }

  /** Two serials that differ only in dashes and letter case share one address. */
  lemma NodeAddressIgnoresDashesAndCase(s1: string, s2: string)
    requires Lower(RemoveDashes(s1)) == Lower(RemoveDashes(s2))
    ensures NodeAddress(s1) == NodeAddress(s2)
  {
    var r1, r2 := RemoveDashes(s1), RemoveDashes(s2);
    assert |r1| == |Lower(r1)| == |Lower(r2)| == |r2|;
    var a1, a2 := NodeAddress(s1), NodeAddress(s2);
    forall i | 0 <= i < |a1|
      ensures a1[i] == a2[i]
    {
      assert Lower(r1)[i] == Lower(r2)[i];
    }
  }

  /** `s.split('-')[0]`: everything before the first dash. */
  function BeforeDash(s: string): (r: string)
    ensures '-' !in r
    ensures r <= s
    ensures |r| < |s| ==> s[|r|] == '-'
  {
    if s == [] || s[0] == '-' then [] else [s[0]] + BeforeDash(s[1..])
  }

  /** The prefix before the first dash is the one `split` gives. */
  lemma BeforeDashIsFirstDash(s: string, i: nat)
    requires i < |s| && s[i] == '-'
    requires forall j :: 0 <= j < i ==> s[j] != '-'
    ensures BeforeDash(s) == s[..i]
  {
  }

  /** The model name discovery compares against the supported list. */
  function ModelPrefix(model: string): (p: string)
    ensures '-' !in p
    ensures p <= model
    ensures p == model || model[|p|] == '-'
  {
    if '-' in model then BeforeDash(model) else model
  }

  /** The `'-' in model` test is redundant: the prefix is always `split('-')[0]`. */
  lemma {:induction false} ModelPrefixIsSplit(model: string)
    ensures ModelPrefix(model) == BeforeDash(model)
  {
    if '-' !in model {
      BeforeDashWithoutDash(model);
    }
  }

  lemma {:induction false} BeforeDashWithoutDash(s: string)
    requires '-' !in s
    ensures BeforeDash(s) == s
  {
    if s != [] {
      assert forall c :: c in s[1..] ==> c in s;
      BeforeDashWithoutDash(s[1..]);
    }
  }

  /** An inverter node is created only for a model whose prefix is a single-phase model. */
  predicate SupportedInverter(model: string) {
    ModelPrefix(model) in SinglePhase
  }

  /** The model prefix ends at the first dash. */
  lemma ModelPrefixAtDash(model: string, i: nat)
    requires i < |model| && model[i] == '-'
    requires forall j :: 0 <= j < i ==> model[j] != '-'
    ensures ModelPrefix(model) == model[..i]
  {
  }

  /** A single-phase model name followed by a dash and any suffix is supported. */
  lemma SuffixedModelSupported(model: string, i: nat)
    requires i < |model| && model[i] == '-'
    requires forall j :: 0 <= j < i ==> model[j] != '-'
    requires model[..i] in SinglePhase
    ensures SupportedInverter(model)
  {
    ModelPrefixAtDash(model, i);
  }

  /** A model whose part before the first dash is shorter than every single-phase name
      (a three-phase `SE10K-...`, say) gets no inverter node. */
  lemma ShortModelUnsupported(model: string, i: nat)
    requires i < 6 && i < |model| && model[i] == '-'
    requires forall j :: 0 <= j < i ==> model[j] != '-'
    ensures !SupportedInverter(model)
  {
    ModelPrefixAtDash(model, i);
    SinglePhaseNamesAreLong();
  }

  lemma SinglePhaseNamesAreLong()
    ensures forall name :: name in SinglePhase ==> |name| >= 6
  {
  }

  /** The characters `[A-Za-z0-9 ]` a sanitised site name keeps. */
  predicate NameChar(c: char) {
    'A' <= c <= 'Z' || 'a' <= c <= 'z' || '0' <= c <= '9' || c == ' '
  }

  /** `re.sub(r'[^A-Za-z0-9 ]+', '', name)`. */
  function SanitizeName(name: string): (r: string)
    ensures forall i :: 0 <= i < |r| ==> NameChar(r[i])
    ensures |r| <= |name|
    ensures forall c :: NameChar(c) ==> multiset(r)[c] == multiset(name)[c]
  {
    if name == [] then []
    else
      assert name == [name[0]] + name[1..];
      if NameChar(name[0]) then [name[0]] + SanitizeName(name[1..]) else SanitizeName(name[1..])
  }

  /**
   * Sanitising works character by character and keeps the order: a name sanitises to
   * the sanitised parts, one after the other, and one character stays exactly when
   * it is a kept character.
   */
  lemma {:induction false} SanitizeNameConcat(a: string, b: string)
    ensures SanitizeName(a + b) == SanitizeName(a) + SanitizeName(b)
  {
    if a == [] {
      assert a + b == b;
    } else {
      assert (a + b)[0] == a[0] && (a + b)[1..] == a[1..] + b;
      SanitizeNameConcat(a[1..], b);
    }
  }

  /** One character is kept exactly when it is a letter, a digit or a space. */
  lemma SanitizeNameChar(c: char)
    ensures SanitizeName([c]) == if NameChar(c) then [c] else []
  {
    assert [c][1..] == [];
  }

  /** A name made only of kept characters comes out unchanged, and only such a name does. */
  lemma {:induction false} SanitizeNameFixes(name: string)
    ensures SanitizeName(name) == name <==> forall i :: 0 <= i < |name| ==> NameChar(name[i])
  {
    if name != [] {
      SanitizeNameFixes(name[1..]);
    }
  }

  /** Sanitising twice is sanitising once. */
  lemma SanitizeNameIdempotent(name: string)
    ensures SanitizeName(SanitizeName(name)) == SanitizeName(name)
  {
    SanitizeNameFixes(SanitizeName(name));
  }
}
