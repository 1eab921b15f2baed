/**
 * Semantic versions as values: the fields the tool reads, precedence as
 * section 11 of Semantic Versioning 2.0.0 defines it (which is what
 * `GreaterThan` decides), and the canonical rendering `String()` produces.
 * Parsing and the increment and override operations belong to the semantic
 * version library and enter the model as parameters (see Commands).
 */
module Semver {

  /** A pre-release identifier: numeric, or alphanumeric with hyphens. */
  datatype Ident = Numeric(n: nat) | Alphanumeric(s: string)

  /** MAJOR.MINOR.PATCH, pre-release identifiers and build identifiers. */
  datatype Version = Version(major: nat, minor: nat, patch: nat, pre: seq<Ident>, build: seq<string>)

  datatype Ordering = Less | Equal | Greater {
    function Flip(): Ordering {
      match this
      case Less => Greater
      case Equal => Equal
      case Greater => Less
    }
  }

  function CompareNat(a: nat, b: nat): Ordering {
    if a < b then Less else if a > b then Greater else Equal
  }

  /** Lexical comparison in ASCII (code point) order; a proper prefix is less. */
  function CompareText(a: string, b: string): Ordering
    decreases |a|
  {
    if a == [] then (if b == [] then Equal else Less)
    else if b == [] then Greater
    else if a[0] < b[0] then Less
    else if a[0] > b[0] then Greater
    else CompareText(a[1..], b[1..])
  }

  /** Numeric identifiers compare numerically and sort before alphanumeric ones. */
  function CompareIdent(a: Ident, b: Ident): Ordering {
    match (a, b)
    case (Numeric(x), Numeric(y)) => CompareNat(x, y)
    case (Numeric(_), Alphanumeric(_)) => Less
    case (Alphanumeric(_), Numeric(_)) => Greater
    case (Alphanumeric(x), Alphanumeric(y)) => CompareText(x, y)
  }

  /** Identifier by identifier; when one list is a prefix of the other, the shorter is less. */
  function CompareIdents(a: seq<Ident>, b: seq<Ident>): Ordering
    decreases |a|
  {
    if a == [] then (if b == [] then Equal else Less)
    else if b == [] then Greater
    else if CompareIdent(a[0], b[0]) != Equal then CompareIdent(a[0], b[0])
    else CompareIdents(a[1..], b[1..])
  }

  /**
   * Precedence: major, minor and patch numerically; then a release is
   * greater than a pre-release of the same core; then the pre-release
   * identifiers. Build metadata never takes part.
   */
  function Compare(a: Version, b: Version): Ordering {
    if a.major != b.major then CompareNat(a.major, b.major)
    else if a.minor != b.minor then CompareNat(a.minor, b.minor)
    else if a.patch != b.patch then CompareNat(a.patch, b.patch)
    else if a.pre == [] && b.pre == [] then Equal
    else if a.pre == [] then Greater
    else if b.pre == [] then Less
    else CompareIdents(a.pre, b.pre)
  }

  /** `Version.GreaterThan`: strictly higher precedence. */
  predicate GreaterThan(a: Version, b: Version) {
    Compare(a, b) == Greater
  }

  /** The fields precedence looks at agree. */
  predicate SamePrecedence(a: Version, b: Version) {
    a.major == b.major && a.minor == b.minor && a.patch == b.patch && a.pre == b.pre
  }

  // ---- CompareText is a total order ----

  lemma {:induction false} CompareTextFlip(a: string, b: string)
    ensures CompareText(b, a) == CompareText(a, b).Flip()
    decreases |a|
  {
    if a != [] && b != [] && a[0] == b[0] { CompareTextFlip(a[1..], b[1..]); }
  }

  lemma {:induction false} CompareTextEqual(a: string, b: string)
    ensures CompareText(a, b) == Equal <==> a == b
    decreases |a|
  {
    if a != [] && b != [] && a[0] == b[0] {
      CompareTextEqual(a[1..], b[1..]);
      assert a == [a[0]] + a[1..] && b == [b[0]] + b[1..];
    }
  }

  lemma {:induction false} CompareTextLessTrans(a: string, b: string, c: string)
    requires CompareText(a, b) == Less && CompareText(b, c) == Less
    ensures CompareText(a, c) == Less
    decreases |a|
  {
    if a != [] && a[0] == b[0] && b[0] == c[0] { CompareTextLessTrans(a[1..], b[1..], c[1..]); }
  }

  // ---- CompareIdent is a total order ----

  lemma CompareIdentFlip(a: Ident, b: Ident)
    ensures CompareIdent(b, a) == CompareIdent(a, b).Flip()
  {
    if a.Alphanumeric? && b.Alphanumeric? { CompareTextFlip(a.s, b.s); }
  }

  lemma CompareIdentEqual(a: Ident, b: Ident)
    ensures CompareIdent(a, b) == Equal <==> a == b
  {
    if a.Alphanumeric? && b.Alphanumeric? { CompareTextEqual(a.s, b.s); }
  }

  lemma CompareIdentLessTrans(a: Ident, b: Ident, c: Ident)
    requires CompareIdent(a, b) == Less && CompareIdent(b, c) == Less
    ensures CompareIdent(a, c) == Less
  {
    if a.Alphanumeric? && b.Alphanumeric? && c.Alphanumeric? { CompareTextLessTrans(a.s, b.s, c.s); }
  }

  /** Less, then less-or-equal (or the other way round), is less. */
  lemma CompareIdentTrans(a: Ident, b: Ident, c: Ident)
    requires CompareIdent(a, b) != Greater && CompareIdent(b, c) != Greater
    ensures CompareIdent(a, c) != Greater
    ensures CompareIdent(a, b) == Less || CompareIdent(b, c) == Less ==> CompareIdent(a, c) == Less
  {
    CompareIdentEqual(a, b);
    CompareIdentEqual(b, c);
    if CompareIdent(a, b) == Less && CompareIdent(b, c) == Less { CompareIdentLessTrans(a, b, c); }
  }

  // ---- CompareIdents is a total order ----

  lemma {:induction false} CompareIdentsFlip(a: seq<Ident>, b: seq<Ident>)
    ensures CompareIdents(b, a) == CompareIdents(a, b).Flip()
    decreases |a|
  {
    if a != [] && b != [] {
      CompareIdentFlip(a[0], b[0]);
      CompareIdentsFlip(a[1..], b[1..]);
    }
  }

  lemma {:induction false} CompareIdentsEqual(a: seq<Ident>, b: seq<Ident>)
    ensures CompareIdents(a, b) == Equal <==> a == b
    decreases |a|
  {
    if a != [] && b != [] {
      CompareIdentEqual(a[0], b[0]);
      CompareIdentsEqual(a[1..], b[1..]);
      assert a == [a[0]] + a[1..] && b == [b[0]] + b[1..];
    }
  }

  lemma {:induction false} CompareIdentsLessTrans(a: seq<Ident>, b: seq<Ident>, c: seq<Ident>)
    requires CompareIdents(a, b) == Less && CompareIdents(b, c) == Less
    ensures CompareIdents(a, c) == Less
    decreases |a|
  {
    if a != [] {
      CompareIdentTrans(a[0], b[0], c[0]);
      if CompareIdent(a[0], b[0]) == Equal && CompareIdent(b[0], c[0]) == Equal {
        CompareIdentsLessTrans(a[1..], b[1..], c[1..]);
      }
    }
  }

  // ---- Compare is a total preorder whose ties are SamePrecedence ----

  /** Swapping the arguments flips the answer. */
  lemma CompareFlip(a: Version, b: Version)
    ensures Compare(b, a) == Compare(a, b).Flip()
  {
    CompareIdentsFlip(a.pre, b.pre);
  }

  /** Two versions tie exactly when they agree on everything but build metadata. */
  lemma CompareEqual(a: Version, b: Version)
    ensures Compare(a, b) == Equal <==> SamePrecedence(a, b)
  {
    CompareIdentsEqual(a.pre, b.pre);
  }

  lemma CompareLessTrans(a: Version, b: Version, c: Version)
    requires Compare(a, b) == Less && Compare(b, c) == Less
    ensures Compare(a, c) == Less
  {
    if a.major == b.major == c.major && a.minor == b.minor == c.minor && a.patch == b.patch == c.patch
       && a.pre != [] && b.pre != [] && c.pre != [] {
      CompareIdentsLessTrans(a.pre, b.pre, c.pre);
    }
  }

  /** Versions of the same precedence compare alike with every third version. */
  lemma CompareSubstitute(a: Version, b: Version, c: Version)
    requires SamePrecedence(a, b)
    ensures Compare(a, c) == Compare(b, c) && Compare(c, a) == Compare(c, b)
  {
  }

  /** Transitivity of less-or-equal, strict when either step is strict. */
  lemma CompareTrans(a: Version, b: Version, c: Version)
    requires Compare(a, b) != Greater && Compare(b, c) != Greater
    ensures Compare(a, c) != Greater
    ensures Compare(a, b) == Less || Compare(b, c) == Less ==> Compare(a, c) == Less
  {
    CompareEqual(a, b);
    CompareEqual(b, c);
    if Compare(a, b) == Equal {
      CompareSubstitute(a, b, c);
    } else if Compare(b, c) == Equal {
      CompareSubstitute(b, c, a);
    } else {
      CompareLessTrans(a, b, c);
    }
  }

  /** GreaterThan is a strict weak order: irreflexive and transitive, and not-greater is transitive. */
  lemma GreaterThanOrder(a: Version, b: Version, c: Version)
    ensures !GreaterThan(a, a)
    ensures GreaterThan(a, b) && GreaterThan(b, c) ==> GreaterThan(a, c)
    ensures !GreaterThan(a, b) && !GreaterThan(b, c) ==> !GreaterThan(a, c)
  {
    CompareEqual(a, a);
    CompareFlip(a, b);
    CompareFlip(b, c);
    CompareFlip(a, c);
    if GreaterThan(a, b) && GreaterThan(b, c) { CompareLessTrans(c, b, a); }
    if !GreaterThan(a, b) && !GreaterThan(b, c) { CompareTrans(a, b, c); }
  }

  /** A release outranks every pre-release of the same core version, whatever the build metadata. */
  lemma ReleaseOutranksPrerelease(release: Version, pre: Version)
    requires release.major == pre.major && release.minor == pre.minor && release.patch == pre.patch
    requires release.pre == [] && pre.pre != []
    ensures GreaterThan(release, pre) && Compare(pre, release) == Less
  {
  }

  // ---- Rendering ----

  function DigitChar(d: nat): char
    requires d < 10
  {
    (d + '0' as int) as char
  }

  predicate IsDigits(s: string) {
    forall k :: 0 <= k < |s| ==> '0' <= s[k] <= '9'
  }

  /** Decimal notation of `n`, as `%d` prints it. */
  function NatString(n: nat): (s: string)
    ensures s != [] && IsDigits(s)
    decreases n
  {
    if n < 10 then [DigitChar(n)] else NatString(n / 10) + [DigitChar(n % 10)]
  }

  /** The number a string of decimal digits denotes. */
  function DecimalValue(s: string): nat
    requires IsDigits(s)
    decreases |s|
  {
    if s == [] then 0 else 10 * DecimalValue(s[..|s| - 1]) + (s[|s| - 1] as int - '0' as int)
  }

  /** The decimal notation reads back as the number, and has no leading zero. */
  lemma {:induction false} NatStringRoundTrip(n: nat)
    ensures DecimalValue(NatString(n)) == n
    ensures NatString(n)[0] == '0' ==> n == 0
    decreases n
  {
    if n >= 10 {
      NatStringRoundTrip(n / 10);
      var s := NatString(n);
      assert s[..|s| - 1] == NatString(n / 10);
    }
  }

  function IdentString(i: Ident): string {
    match i
    case Numeric(n) => NatString(n)
    case Alphanumeric(s) => s
  }

  /** `strings.Join(parts, ".")`. */
  function JoinDots(parts: seq<string>): string
    decreases |parts|
  {
    if parts == [] then []
    else if |parts| == 1 then parts[0]
    else parts[0] + "." + JoinDots(parts[1..])
  }

  /** `Version.String()`: MAJOR.MINOR.PATCH, then `-` and the pre-release, then `+` and the build, each only when present. */
  function Render(v: Version): string {
    NatString(v.major) + "." + NatString(v.minor) + "." + NatString(v.patch)
    + (if v.pre == [] then "" else "-" + JoinDots(seq(|v.pre|, k requires 0 <= k < |v.pre| => IdentString(v.pre[k]))))
    + (if v.build == [] then "" else "+" + JoinDots(v.build))
  }

  /** The version a repository without version tags starts from. */
  const Bootstrap: Version := Version(0, 1, 0, [], [])

  lemma RenderBootstrap()
    ensures Render(Bootstrap) == "0.1.0"
  {
  }
}
