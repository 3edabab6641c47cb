/** Versions as they are written in a manifest. */
module PluginVersions {
  import opened PluginModel
  import D = Decimals

  /** The place of the first dot, or the length. */
  function Dot(text: string): (at: nat)
    ensures at <= |text| && (forall i :: 0 <= i < at ==> text[i] != '.') && (at < |text| ==> text[at] == '.')
  {
    if text == "" || text[0] == '.' then 0 else 1 + Dot(text[1..])
  }

  function ParsePart(text: string): Option<Part> {
    match D.Unsigned(text, 65535)
    case None => None
    case Some(value) => PartOf(value)
  }

  function PartOf(value: nat): Option<Part> {
    if value < 65536 then Some(value) else None
  }

  /** Three parts of digits, none above 65535, with a dot between them and nothing after. */
  function ParseVersion(text: string): Option<Version> {
    var first := Dot(text);
    if first == |text| then None else
      var rest := text[first + 1..];
      var second := Dot(rest);
      if second == |rest| then None else
        var major, minor, patch := ParsePart(text[..first]), ParsePart(rest[..second]), ParsePart(rest[second + 1..]);
        if major.Some? && minor.Some? && patch.Some? then Some(Version(major.value, minor.value, patch.value)) else None
  }

  predicate IsPart(text: string) {
    D.Digits(text) && D.Value(text) <= 65535
  }

  lemma Splits(a: string, b: string)
    requires '.' !in a
    ensures var text := a + "." + b; Dot(text) == |a| && text[..|a|] == a && text[|a| + 1..] == b
  {
    var text := a + "." + b;
    assert text[|a|] == '.' && forall i :: 0 <= i < |a| ==> text[i] == a[i] && a[i] in a;
  }

  /** A text is a version exactly when it is made of three such parts, and then it is the version of these. */
  lemma VersionsExactly(major: string, minor: string, patch: string)
    requires '.' !in major && '.' !in minor
    ensures var parsed := ParseVersion(major + ("." + (minor + ("." + patch))));
            && (parsed.Some? <==> IsPart(major) && IsPart(minor) && IsPart(patch))
            && (parsed.Some? ==> parsed == Some(Version(D.Value(major), D.Value(minor), D.Value(patch))))
  {
    var rest := minor + "." + patch;
    assert major + ("." + (minor + ("." + patch))) == major + "." + rest;
    Splits(major, rest);
    Splits(minor, patch);
    PartIs(major);
    PartIs(minor);
    PartIs(patch);
    hide Dot, ParsePart, IsPart;
  }

  lemma PartIs(text: string)
    ensures ParsePart(text).Some? <==> IsPart(text)
    ensures IsPart(text) ==> ParsePart(text).value == D.Value(text)
  {
  }

  /** Whatever is read as a version has that form. */
  lemma VersionsAreThree(text: string) returns (major: string, minor: string, patch: string)
    requires ParseVersion(text).Some?
    ensures '.' !in major && '.' !in minor && text == major + ("." + (minor + ("." + patch)))
    ensures IsPart(major) && IsPart(minor) && IsPart(patch)
  {
    var first := Dot(text);
    var rest := text[first + 1..];
    var second := Dot(rest);
    major, minor, patch := text[..first], rest[..second], rest[second + 1..];
    assert rest == minor + ("." + patch);
    assert text == major + ("." + rest);
    hide D.Digits, D.Value;
  }

  function VersionText(version: Version): string {
    D.Decimal(version.major) + ("." + (D.Decimal(version.minor) + ("." + D.Decimal(version.patch))))
  }

  /** A written version reads back. */
  lemma VersionReads(version: Version)
    ensures ParseVersion(VersionText(version)) == Some(version)
  {
    D.DecimalReads(version.major);
    D.DecimalReads(version.minor);
    D.DecimalReads(version.patch);
    hide D.Decimal, ParseVersion;
    VersionsExactly(D.Decimal(version.major), D.Decimal(version.minor), D.Decimal(version.patch));
  }
}
