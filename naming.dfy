/** The name under which a downloaded profile is kept: the profile heading with
    every character outside [A-Za-z0-9] replaced by '_', then '_', the
    millisecond timestamp in decimal, and ".pdf". */
module Naming {

  /** The name the browser gives the exported profile in the download directory. */
  const Artifact: string := "Profile.pdf"

  /** The extension of every renamed profile. */
  const Extension: string := ".pdf"

  /** The characters the replacement pattern [^a-zA-Z0-9] leaves alone. */
  predicate IsAlnum(c: char) {
    'a' <= c <= 'z' || 'A' <= c <= 'Z' || '0' <= c <= '9'
  }

  /** The characters a sanitized name may contain. */
  predicate IsSafe(c: char) {
    IsAlnum(c) || c == '_'
  }

  predicate IsDigit(c: char) {
    '0' <= c <= '9'
  }

  /** The global replacement of every character outside [A-Za-z0-9] by '_'. */
  function Sanitize(s: string): string {
    if s == [] then [] else [if IsAlnum(s[0]) then s[0] else '_'] + Sanitize(s[1..])
  }

  /** Sanitizing is a character-wise map: the same length, every alphanumeric
      character kept at its position, every other character replaced by '_'. */
  lemma {:induction false} SanitizeAt(s: string)
    ensures |Sanitize(s)| == |s|
    ensures forall i :: 0 <= i < |s| ==> Sanitize(s)[i] == if IsAlnum(s[i]) then s[i] else '_'
  {
    if s != [] {
      SanitizeAt(s[1..]);
      forall i | 0 <= i < |s|
        ensures Sanitize(s)[i] == if IsAlnum(s[i]) then s[i] else '_'
      {
        if i > 0 {
          assert Sanitize(s)[i] == Sanitize(s[1..])[i - 1];
          assert s[1..][i - 1] == s[i];
        }
      }
    }
  }

  /** A sanitized name holds only characters of [A-Za-z0-9_]. */
  lemma {:induction false} SanitizeIsSafe(s: string)
    ensures forall i :: 0 <= i < |Sanitize(s)| ==> IsSafe(Sanitize(s)[i])
  {
    SanitizeAt(s);
  }

  /** A name is left unchanged by sanitizing exactly when it is already made of
      characters of [A-Za-z0-9_]. */
  lemma {:induction false} SanitizeFixedIff(s: string)
    ensures Sanitize(s) == s <==> forall i :: 0 <= i < |s| ==> IsSafe(s[i])
  {
    SanitizeAt(s);
    if forall i :: 0 <= i < |s| ==> IsSafe(s[i]) {
      assert forall i :: 0 <= i < |s| ==> Sanitize(s)[i] == s[i];
    }
    if Sanitize(s) == s {
      forall i | 0 <= i < |s| ensures IsSafe(s[i]) {
        assert s[i] == Sanitize(s)[i];
      }
    }
  }

  /** Sanitizing twice is sanitizing once. */
  lemma {:induction false} SanitizeIdempotent(s: string)
    ensures Sanitize(Sanitize(s)) == Sanitize(s)
  {
    SanitizeIsSafe(s);
    SanitizeFixedIff(Sanitize(s));
  }

  function DigitChar(d: nat): char
    requires d < 10
  {
    ('0' as int + d) as char
  }

  function DigitValue(c: char): nat {
    if IsDigit(c) then (c as int - '0' as int) as nat else 0
  }

  /** How a non-negative integer number is written in a template string:
      decimal digits, most significant first, without leading zeros. */
  function Decimal(n: nat): string
    decreases n
  {
    if n < 10 then [DigitChar(n)] else Decimal(n / 10) + [DigitChar(n % 10)]
  }

  /** The number a string of decimal digits denotes. */
  function DigitsValue(s: string): nat {
    if s == [] then 0 else DigitsValue(s[..|s| - 1]) * 10 + DigitValue(s[|s| - 1])
  }

  /** Decimal writes a non-empty string of digits without a leading zero, and
      reading those digits back gives the number again. */
  lemma {:induction false} DecimalRoundTrip(n: nat)
    ensures |Decimal(n)| >= 1
    ensures forall i :: 0 <= i < |Decimal(n)| ==> IsDigit(Decimal(n)[i])
    ensures Decimal(n)[0] == '0' ==> n == 0
    ensures DigitsValue(Decimal(n)) == n
    decreases n
  {
    if n >= 10 {
      var p := Decimal(n / 10);
      DecimalRoundTrip(n / 10);
      assert Decimal(n) == p + [DigitChar(n % 10)];
      assert Decimal(n)[..|Decimal(n)| - 1] == p;
      assert DigitsValue(Decimal(n)) == DigitsValue(p) * 10 + n % 10;
    }
  }

  /** Different numbers are written differently. */
  lemma DecimalInjective(a: nat, b: nat)
    ensures Decimal(a) == Decimal(b) ==> a == b
  {
    DecimalRoundTrip(a);
    DecimalRoundTrip(b);
  }

  /** The new path's file name: `${sanitized}_${timestamp}.pdf`. */
  function OutputName(heading: string, timestamp: nat): string {
    Sanitize(heading) + "_" + Decimal(timestamp) + Extension
  }

  /** The layout of an output name: the sanitized heading, '_', nothing but
      digits, and ".pdf"; the digits read back as the timestamp. */
  lemma OutputNameLayout(heading: string, timestamp: nat)
    ensures var r := OutputName(heading, timestamp);
      var n := |heading|;
      && |r| == n + 1 + |Decimal(timestamp)| + |Extension|
      && r[..n] == Sanitize(heading)
      && (forall i :: 0 <= i < n ==> IsSafe(r[i]))
      && r[n] == '_'
      && (forall i :: n < i < |r| - |Extension| ==> IsDigit(r[i]))
      && r[|r| - |Extension|..] == Extension
      && DigitsValue(r[n + 1..|r| - |Extension|]) == timestamp
  {
    var r := OutputName(heading, timestamp);
    var n := |heading|;
    var d := Decimal(timestamp);
    SanitizeAt(heading);
    SanitizeIsSafe(heading);
    DecimalRoundTrip(timestamp);
    assert r == Sanitize(heading) + "_" + d + Extension;
    assert r[n + 1..|r| - |Extension|] == d;
    forall i | n < i < |r| - |Extension| ensures IsDigit(r[i]) {
      assert r[i] == d[i - n - 1];
    }
    forall i | 0 <= i < n ensures IsSafe(r[i]) {
      assert r[i] == Sanitize(heading)[i];
    }
  }

  /** Two different timestamps give two different file names for one heading. */
  lemma OutputNameDistinct(heading: string, t1: nat, t2: nat)
    requires t1 != t2
    ensures OutputName(heading, t1) != OutputName(heading, t2)
  {
    OutputNameLayout(heading, t1);
    OutputNameLayout(heading, t2);
  }

  /** A renamed profile never takes the artifact's own name back: every output
      name holds a '_', and "Profile.pdf" does not. */
  lemma OutputNameIsNotArtifact(heading: string, timestamp: nat)
    ensures OutputName(heading, timestamp) != Artifact
  {
    OutputNameLayout(heading, timestamp);
  }

  /** Headings that differ only outside [A-Za-z0-9] share their file name at a
      given timestamp: only the timestamp keeps such profiles apart. */
  lemma SanitizeMergesPunctuation(timestamp: nat)
    ensures OutputName("Jane Doe", timestamp) == OutputName("Jane-Doe", timestamp)
    ensures OutputName("Jane Doe", timestamp) == "Jane_Doe_" + Decimal(timestamp) + ".pdf"
  {
    assert Sanitize("Jane Doe") == "Jane_Doe";
    assert Sanitize("Jane-Doe") == "Jane_Doe";
  }
}
