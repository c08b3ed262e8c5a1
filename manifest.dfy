/**
 * The extension manifest's derived fields: the semver of the package turned
 * into Chrome's dotted four-part `version`, the semver itself as
 * `version_name`, and the staging/production `name`.
 */
module Manifest {
  import opened Wrappers
  import Decimal

  /** A character the sanitising regex keeps: an ASCII digit, `.` or `-`. */
  predicate Allowed(c: char) {
    Decimal.IsDigit(c) || c == '.' || c == '-'
  }

  predicate AllAllowed(s: string) {
    forall i :: 0 <= i < |s| ==> Allowed(s[i])
  }

  /** A character the splitting regex `[.-]` splits on. */
  predicate IsSep(c: char) {
    c == '.' || c == '-'
  }

  predicate NoSep(s: string) {
    forall i :: 0 <= i < |s| ==> !IsSep(s[i])
  }

  /** `replace(/[^\d.-]+/g, "")`: drop every character that is not a digit, `.` or `-`. */
  function Sanitize(s: string): (r: string)
    ensures AllAllowed(r)
    ensures |r| <= |s|
  {
    if s == [] then [] else (if Allowed(s[0]) then [s[0]] else []) + Sanitize(s[1..])
  }

  /** Sanitising works character by character: it keeps an allowed one and drops any other ... */
  lemma SanitizeChar(c: char)
    ensures Sanitize([c]) == if Allowed(c) then [c] else []
  {
  }

  /** ... and it distributes over concatenation, so the kept characters stay in their order. */
  lemma {:induction false} SanitizeAppend(s: string, t: string)
    ensures Sanitize(s + t) == Sanitize(s) + Sanitize(t)
  {
    if s == [] {
      assert s + t == t;
    } else {
      var head := if Allowed(s[0]) then [s[0]] else [];
      assert (s + t)[0] == s[0] && (s + t)[1..] == s[1..] + t;
      SanitizeAppend(s[1..], t);
      calc {
        Sanitize(s + t);
        head + Sanitize(s[1..] + t);
        head + (Sanitize(s[1..]) + Sanitize(t));
        (head + Sanitize(s[1..])) + Sanitize(t);
      }
    }
  }

  /** A string of allowed characters only is left as it is; in particular sanitising is idempotent. */
  lemma {:induction false} SanitizeKeepsAllowed(s: string)
    requires AllAllowed(s)
    ensures Sanitize(s) == s
  {
    if s != [] {
      SanitizeKeepsAllowed(s[1..]);
    }
  }

  /** `split(/[.-]/)`: the pieces between separators, empty ones included; never an empty list. */
  function Split(s: string): (parts: seq<string>)
    ensures |parts| >= 1
    ensures forall i :: 0 <= i < |parts| ==> NoSep(parts[i])
  {
    if s == [] then [""]
    else
      var rest := Split(s[1..]);
      if IsSep(s[0]) then [""] + rest
      else [[s[0]] + rest[0]] + rest[1..]
  }

  /** The parts joined with `.`. */
  function Join(parts: seq<string>): string
    requires |parts| >= 1
  {
    if |parts| == 1 then parts[0] else parts[0] + "." + Join(parts[1..])
  }

  /** `s` with every `-` turned into `.`. */
  function Dotted(s: string): (r: string)
    ensures |r| == |s|
  {
    if s == [] then [] else [if s[0] == '-' then '.' else s[0]] + Dotted(s[1..])
  }

  /** Joining the split parts with dots gives back the input, its dashes read as dots. */
  lemma {:induction false} JoinSplit(s: string)
    ensures Join(Split(s)) == Dotted(s)
  {
    if s != [] {
      JoinSplit(s[1..]);
      var rest := Split(s[1..]);
      if !IsSep(s[0]) {
        var parts := Split(s);
        if |rest| > 1 {
          assert parts[1..] == rest[1..];
          assert Join(rest) == rest[0] + "." + Join(rest[1..]);
        }
      }
    }
  }

  /** A separator-free prefix glues onto the first part. */
  lemma {:induction false} SplitPrefix(p: string, s: string)
    requires NoSep(p)
    ensures Split(p + s) == [p + Split(s)[0]] + Split(s)[1..]
  {
    var tail := Split(s);
    if p == [] {
      assert p + s == s && p + tail[0] == tail[0];
    } else {
      assert (p + s)[0] == p[0] && !IsSep(p[0]);
      assert (p + s)[1..] == p[1..] + s;
      SplitPrefix(p[1..], s);
      assert [p[0]] + (p[1..] + tail[0]) == p + tail[0];
    }
  }

  /** Splitting separator-free parts joined with dots gives the parts back. */
  lemma {:induction false} SplitJoin(parts: seq<string>)
    requires |parts| >= 1
    requires forall i :: 0 <= i < |parts| ==> NoSep(parts[i])
    ensures Split(Join(parts)) == parts
  {
    if |parts| == 1 {
      SplitPrefix(parts[0], "");
      assert parts[0] + "" == parts[0];
    } else {
      var tail := Join(parts[1..]);
      assert Join(parts) == parts[0] + ("." + tail);
      SplitJoin(parts[1..]);
      assert ("." + tail)[0] == '.' && ("." + tail)[1..] == tail;
      assert Split("." + tail) == [""] + parts[1..];
      SplitPrefix(parts[0], "." + tail);
      assert parts[0] + "" == parts[0];
      assert parts == [parts[0]] + parts[1..];
    }
  }

  lemma JoinFour(a: string, b: string, c: string, d: string)
    ensures Join([a, b, c, d]) == a + "." + b + "." + c + "." + d
  {
    assert [a, b, c, d][1..] == [b, c, d] && [b, c, d][1..] == [c, d] && [c, d][1..] == [d];
    assert Join([c, d]) == c + "." + d;
    assert Join([b, c, d]) == b + "." + (c + "." + d);
  }

  /** Element `i` of the array, `undefined` past its end. */
  function At(parts: seq<string>, i: nat): Option<string> {
    if i < |parts| then Some(parts[i]) else None
  }

  /**
   * `const [major, minor, patch, label = "0"]` over the split parts: the
   * first part always exists, the second and third may be `undefined`, and
   * the default applies only when there is no fourth part (the `label`
   * element; an empty fourth part stays empty).
   */
  datatype VersionParts = VersionParts(major: string, minor: Option<string>, patch: Option<string>, prerelease: string)

  function Destructure(parts: seq<string>): (d: VersionParts)
    requires |parts| >= 1
    ensures d.major == parts[0]
    ensures d.minor == if |parts| > 1 then Some(parts[1]) else None
    ensures d.patch == if |parts| > 2 then Some(parts[2]) else None
    ensures d.prerelease == if |parts| > 3 then parts[3] else "0"
  {
    VersionParts(parts[0], At(parts, 1), At(parts, 2), At(parts, 3).GetOr("0"))
  }

  /** The manifest's `version`: the template `${major}.${minor}.${patch}.${label}`. */
  function ChromeVersion(version: string): (r: string)
    ensures forall i :: 0 <= i < |r| ==> r[i] != '-'
  {
    var d := Destructure(Split(Sanitize(version)));
    d.major + "." + TemplateText(d.minor) + "." + TemplateText(d.patch) + "." + d.prerelease
  }

  /**
   * The derived version is exactly four dot-separated fields: the first four
   * parts of the sanitised version, anything beyond the fourth dropped, a
   * missing fourth part read as `"0"` and a missing second or third part as
   * the text `undefined`.
   */
  lemma ChromeVersionFields(version: string)
    ensures var parts := Split(Sanitize(version));
      var d := Destructure(parts);
      && Split(ChromeVersion(version)) == [d.major, TemplateText(d.minor), TemplateText(d.patch), d.prerelease]
      && (|parts| >= 4 ==> Split(ChromeVersion(version)) == parts[..4])
      && (|parts| == 3 ==> Split(ChromeVersion(version)) == parts + ["0"])
      && (|parts| < 3 ==> Split(ChromeVersion(version))[2] == "undefined")
  {
    var parts := Split(Sanitize(version));
    var d := Destructure(parts);
    var f := [d.major, TemplateText(d.minor), TemplateText(d.patch), d.prerelease];
    assert NoSep("undefined") && NoSep("0");
    JoinFour(f[0], f[1], f[2], f[3]);
    assert f == [f[0], f[1], f[2], f[3]];
    SplitJoin(f);
  }

  lemma AllowedConcat(a: string, b: string)
    requires AllAllowed(a) && AllAllowed(b)
    ensures AllAllowed(a + b)
  {
    forall i | 0 <= i < |a + b| ensures Allowed((a + b)[i]) {
      if i >= |a| { assert (a + b)[i] == b[i - |a|]; }
    }
  }

  /** A version that already is four dot-separated digit strings is returned unchanged. */
  lemma ChromeVersionIdempotent(parts: seq<string>)
    requires |parts| == 4
    requires forall i :: 0 <= i < 4 ==> Decimal.AllDigits(parts[i])
    ensures ChromeVersion(Join(parts)) == Join(parts)
  {
    var p0, p1, p2, p3 := parts[0], parts[1], parts[2], parts[3];
    assert parts == [p0, p1, p2, p3];
    JoinFour(p0, p1, p2, p3);
    var v := Join(parts);
    assert AllAllowed(p0) && AllAllowed(p1) && AllAllowed(p2) && AllAllowed(p3) by {
      assert Decimal.AllDigits(p0) && Decimal.AllDigits(p1) && Decimal.AllDigits(p2) && Decimal.AllDigits(p3);
    }
    AllowedConcat(p0, ".");
    AllowedConcat(p0 + ".", p1);
    AllowedConcat(p0 + "." + p1, ".");
    AllowedConcat(p0 + "." + p1 + ".", p2);
    AllowedConcat(p0 + "." + p1 + "." + p2, ".");
    AllowedConcat(p0 + "." + p1 + "." + p2 + ".", p3);
    SanitizeKeepsAllowed(v);
    forall i | 0 <= i < 4 ensures NoSep(parts[i]) {
      assert Decimal.AllDigits(parts[i]);
    }
    SplitJoin(parts);
  }

  /** A separator after a separator-free prefix closes that prefix as one part. */
  lemma SplitAtSep(p: string, c: char, s: string)
    requires NoSep(p) && IsSep(c)
    ensures Split(p + [c] + s) == [p] + Split(s)
  {
    assert ([c] + s)[0] == c && ([c] + s)[1..] == s;
    SplitPrefix(p, [c] + s);
    assert p + [c] + s == p + ([c] + s);
    assert p + "" == p;
  }

  lemma SanitizeExample()
    ensures Sanitize("0.1.0-beta6") == "0.1.0-6"
  {
  }

  lemma SplitExample()
    ensures Split("0.1.0-6") == ["0", "1", "0", "6"]
  {
    assert NoSep("0") && NoSep("1") && NoSep("6");
    SplitPrefix("6", "");
    assert "6" + "" == "6";
    SplitAtSep("0", '-', "6");
    assert "0" + ['-'] + "6" == "0-6";
    SplitAtSep("1", '.', "0-6");
    assert "1" + ['.'] + "0-6" == "1.0-6";
    SplitAtSep("0", '.', "1.0-6");
    assert "0" + ['.'] + "1.0-6" == "0.1.0-6";
  }

  /** The semver of the package's own example, `0.1.0-beta6`, becomes `0.1.0.6`. */
  lemma ChromeVersionExample()
    ensures ChromeVersion("0.1.0-beta6") == "0.1.0.6"
  {
    SanitizeExample();
    SplitExample();
  }

  /** The manifest fields derived from the build mode and the package version. */
  datatype ManifestFields = ManifestFields(name: string, version: string, versionName: string)

  function Manifest(mode: string, version: string): (m: ManifestFields)
    ensures m.name == "[INTERNAL] Just Read It" <==> mode == "staging"
    ensures mode != "staging" ==> m.name == "Just Read It"
    ensures m.version == ChromeVersion(version)
    ensures m.versionName == version
  {
    ManifestFields(
      if mode == "staging" then "[INTERNAL] Just Read It" else "Just Read It",
      ChromeVersion(version),
      version)
  }
}
