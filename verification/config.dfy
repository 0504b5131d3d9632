/** Configuration read from the process environment: the start-up check
    for missing variables (server.js lines 9-25) and the SMTP transport
    options the contact handler derives on every request (lines 43-51). */
module Config {
  import opened Wrappers
  import opened Strings

  /** The process environment. A variable that is not in the map is unset,
      which JavaScript reads as `undefined`. */
  type Env = map<string, string>

  function Lookup(env: Env, key: string): (r: Option<string>)
    ensures r.Some? <==> key in env
    ensures r.Some? ==> r.value == env[key]
  {
    if key in env then Some(env[key]) else None
  }

  /** JavaScript truthiness of `process.env[key]`: the variable is present
      and not the empty string. */
  predicate IsSet(env: Env, key: string)
  {
    key in env && env[key] != ""
  }

  /** The variables the server expects, in the order it lists them. */
  const RequiredEnvVars: seq<string> :=
    ["SMTP_HOST", "SMTP_PORT", "SMTP_USER", "SMTP_PASS", "CONTACT_TO"]

  /** No element occurs twice. */
  predicate Distinct(s: seq<string>)
  {
    forall i, j :: 0 <= i < j < |s| ==> s[i] != s[j]
  }

  /** `a` is `b` with some elements dropped and the rest kept in order. */
  ghost predicate IsSubsequence(a: seq<string>, b: seq<string>)
    decreases |b|
  {
    |a| == 0 ||
    (|b| > 0 && ((a[0] == b[0] && IsSubsequence(a[1..], b[1..])) || IsSubsequence(a, b[1..])))
  }

  lemma {:induction false} SubsequenceMembers(a: seq<string>, b: seq<string>, x: string)
    requires IsSubsequence(a, b)
    requires x in a
    ensures x in b
    decreases |b|
  {
    if a[0] == b[0] && IsSubsequence(a[1..], b[1..]) {
      if x != a[0] {
        assert x in a[1..];
        SubsequenceMembers(a[1..], b[1..], x);
      }
    } else {
      SubsequenceMembers(a, b[1..], x);
    }
  }

  /** The keys of `keys` that `env` leaves unset or empty, in order: the
      filter of server.js line 18 applied to any key list. */
  function MissingFrom(keys: seq<string>, env: Env): (r: seq<string>)
    ensures IsSubsequence(r, keys)
    ensures forall k :: k in r <==> k in keys && !IsSet(env, k)
  {
    if |keys| == 0 then []
    else if IsSet(env, keys[0]) then
      var tail := MissingFrom(keys[1..], env);
      assert forall k :: k in keys <==> k == keys[0] || k in keys[1..];
      tail
    else
      var tail := MissingFrom(keys[1..], env);
      assert forall k :: k in keys <==> k == keys[0] || k in keys[1..];
      assert ([keys[0]] + tail)[1..] == tail;
      [keys[0]] + tail
  }

  /** `missingEnv`: the required variables that are unset or empty. */
  function MissingEnv(env: Env): (r: seq<string>)
    ensures IsSubsequence(r, RequiredEnvVars)
    ensures forall k :: k in r <==> k in RequiredEnvVars && !IsSet(env, k)
  {
    MissingFrom(RequiredEnvVars, env)
  }

  /** Order and membership pin the filter down: over a key list without
      repetitions, the only in-order selection of exactly the unset keys is
      the one `MissingFrom` returns. */
  lemma {:induction false} MissingFromUnique(keys: seq<string>, env: Env, other: seq<string>)
    requires Distinct(keys)
    requires IsSubsequence(other, keys)
    requires forall k :: k in other <==> k in keys && !IsSet(env, k)
    ensures other == MissingFrom(keys, env)
    decreases |keys|
  {
    if |keys| == 0 {
    } else {
      var k0, ks := keys[0], keys[1..];
      assert Distinct(ks) by {
        forall i, j | 0 <= i < j < |ks| ensures ks[i] != ks[j] {
          assert ks[i] == keys[i + 1] && ks[j] == keys[j + 1];
        }
      }
      assert k0 !in ks by {
        forall i | 0 <= i < |ks| ensures ks[i] != k0 {
          assert ks[i] == keys[i + 1];
        }
      }
      assert forall k :: k in keys <==> k == k0 || k in ks;
      if IsSet(env, k0) {
        assert k0 !in other;
        if |other| > 0 {
          assert other[0] in other;
          assert IsSubsequence(other, ks);
        }
        MissingFromUnique(ks, env, other);
      } else {
        assert k0 in other;
        if !(other[0] == k0 && IsSubsequence(other[1..], ks)) {
          SubsequenceMembers(other, ks, k0);
          assert false;
        }
        var rest := other[1..];
        forall x ensures x in rest <==> x in ks && !IsSet(env, x) {
          if x in rest {
            SubsequenceMembers(rest, ks, x);
            assert x in other;
          }
          if x in ks && !IsSet(env, x) {
            assert x in other && x != other[0];
            assert other == [other[0]] + rest;
          }
        }
        MissingFromUnique(ks, env, rest);
        assert other == [other[0]] + rest;
      }
    }
  }

  /** `missingEnv` is the unique in-order selection of the unset required
      variables. */
  lemma MissingEnvUnique(env: Env, other: seq<string>)
    requires IsSubsequence(other, RequiredEnvVars)
    requires forall k :: k in other <==> k in RequiredEnvVars && !IsSet(env, k)
    ensures other == MissingEnv(env)
  {
    MissingFromUnique(RequiredEnvVars, env, other);
  }

  const WarningPrefix: string := "\U{26A0}\U{FE0F}  Missing environment variables: "
  const WarningSuffix: string := ". Email delivery will fail until these are provided."

  /** The start-up warning, or `None` when no warning is written. */
  function MissingEnvWarning(env: Env): (r: Option<string>)
    ensures r.Some? <==> exists k :: k in RequiredEnvVars && !IsSet(env, k)
    ensures r.Some? ==> forall k :: k in RequiredEnvVars && !IsSet(env, k) ==> Contains(r.value, k)
  {
    var missing := MissingEnv(env);
    if |missing| > 0 then
      var text := WarningPrefix + Join(missing, ", ") + WarningSuffix;
      assert missing[0] in RequiredEnvVars && !IsSet(env, missing[0]);
      assert forall k :: k in RequiredEnvVars && !IsSet(env, k) ==> Contains(text, k) by {
        forall k | k in RequiredEnvVars && !IsSet(env, k) ensures Contains(text, k) {
          var i :| 0 <= i < |missing| && missing[i] == k;
          JoinContainsPart(missing, ", ", i);
          ContainsInContext(WarningPrefix, Join(missing, ", "), WarningSuffix, k);
        }
      }
      Some(text)
    else
      None
  }

  lemma ContainsInContext(p: string, m: string, q: string, x: string)
    requires Contains(m, x)
    ensures Contains(p + m + q, x)
  {
    var i :| OccursAt(m, x, i);
    var s := p + m + q;
    assert s[|p| + i..|p| + i + |x|] == m[i..i + |x|];
    assert OccursAt(s, x, |p| + i);
  }

  // ---------------------------------------------------------------------
  // Number(process.env.SMTP_PORT), for decimal digit strings

  predicate IsDigit(c: char)
  {
    '0' <= c <= '9'
  }

  predicate AllDigits(s: string)
  {
    forall i :: 0 <= i < |s| ==> IsDigit(s[i])
  }

  /** The value of a string of decimal digits; the empty string is 0, as
      `Number("")` is. */
  function DigitsValue(s: string): (r: nat)
    requires AllDigits(s)
  {
    if |s| == 0 then 0
    else DigitsValue(s[..|s| - 1]) * 10 + (s[|s| - 1] as int - '0' as int)
  }

  function DigitChar(d: nat): (c: char)
    requires d < 10
    ensures IsDigit(c) && c as int - '0' as int == d
  {
    (d + '0' as int) as char
  }

  /** The canonical decimal spelling of `n`: digits only, no leading zero. */
  function Decimal(n: nat): (r: string)
    ensures |r| > 0 && AllDigits(r)
    ensures r[0] == '0' ==> n == 0
  {
    if n < 10 then [DigitChar(n)]
    else Decimal(n / 10) + [DigitChar(n % 10)]
  }

  /** Reading back a decimal spelling gives the number spelled. */
  lemma {:induction false} DecimalRoundTrip(n: nat)
    ensures DigitsValue(Decimal(n)) == n
  {
    var s := Decimal(n);
    if n >= 10 {
      assert s[..|s| - 1] == Decimal(n / 10);
      DecimalRoundTrip(n / 10);
    }
  }

  /** Leading zeros do not change the value (`Number("0465")` is 465). */
  lemma {:induction false} LeadingZeroValue(s: string)
    requires AllDigits(s)
    ensures AllDigits("0" + s) && DigitsValue("0" + s) == DigitsValue(s)
    decreases |s|
  {
    var z := "0" + s;
    assert AllDigits(z);
    if |s| > 0 {
      assert z[..|z| - 1] == "0" + s[..|s| - 1];
      LeadingZeroValue(s[..|s| - 1]);
    }
  }

  /** `z` zero digits. */
  function Zeros(z: nat): (r: string)
    ensures |r| == z && AllDigits(r)
    ensures forall i :: 0 <= i < |r| ==> r[i] == '0'
  {
    if z == 0 then "" else "0" + Zeros(z - 1)
  }

  /** Any number of leading zeros leaves the value unchanged. */
  lemma {:induction false} ZerosValue(z: nat, s: string)
    requires AllDigits(s)
    ensures AllDigits(Zeros(z) + s) && DigitsValue(Zeros(z) + s) == DigitsValue(s)
  {
    if z > 0 {
      ZerosValue(z - 1, s);
      assert Zeros(z) + s == "0" + (Zeros(z - 1) + s);
      LeadingZeroValue(Zeros(z - 1) + s);
    } else {
      assert Zeros(z) + s == s;
    }
  }

  /** A decimal spelling with leading zeros reads back as the number spelled. */
  lemma SpelledValue(z: nat, n: nat)
    ensures AllDigits(Zeros(z) + Decimal(n)) && DigitsValue(Zeros(z) + Decimal(n)) == n
  {
    ZerosValue(z, Decimal(n));
    DecimalRoundTrip(n);
  }

  /** A digit string without a leading zero is the canonical spelling of
      its value: the converse of `DecimalRoundTrip`. */
  lemma {:induction false} CanonicalDecimal(s: string)
    requires |s| > 0 && AllDigits(s) && s[0] != '0'
    ensures Decimal(DigitsValue(s)) == s
    decreases |s|
  {
    var p, d := s[..|s| - 1], s[|s| - 1] as int - '0' as int;
    if |p| == 0 {
      assert s == [DigitChar(d)];
    } else {
      assert p[0] == s[0];
      CanonicalDecimal(p);
      var v := DigitsValue(p);
      assert v != 0;
      assert DigitsValue(s) == v * 10 + d;
      assert DigitsValue(s) / 10 == v && DigitsValue(s) % 10 == d;
      assert s == p + [DigitChar(d)];
    }
  }

  /** Every non-empty digit string is some number's decimal spelling after
      some leading zeros. */
  lemma {:induction false} DigitStringSpelling(s: string) returns (z: nat, n: nat)
    requires |s| > 0 && AllDigits(s)
    ensures s == Zeros(z) + Decimal(n)
    decreases |s|
  {
    if s[0] != '0' {
      z, n := 0, DigitsValue(s);
      CanonicalDecimal(s);
    } else if |s| == 1 {
      z, n := 0, 0;
    } else {
      var z', n' := DigitStringSpelling(s[1..]);
      z, n := z' + 1, n';
      assert s == "0" + s[1..];
    }
  }

  /** `Number(raw)`: `None` plays `NaN`. `undefined` is `NaN`; a string of
      decimal digits (the empty one included) is its value; any other string
      is `NaN` here. */
  function ParseNumber(raw: Option<string>): (r: Option<nat>)
    ensures raw.None? ==> r.None?
    ensures r.Some? ==> raw.Some? && AllDigits(raw.value)
    ensures raw.Some? && AllDigits(raw.value) ==> r.Some?
    ensures raw == Some("") ==> r == Some(0)
    ensures forall z: nat, n: nat :: raw == Some(Zeros(z) + Decimal(n)) ==> r == Some(n)
  {
    match raw
    case None => None
    case Some(s) =>
      assert forall z: nat, n: nat :: s == Zeros(z) + Decimal(n) ==> AllDigits(s) && DigitsValue(s) == n by {
        forall z: nat, n: nat | s == Zeros(z) + Decimal(n) ensures AllDigits(s) && DigitsValue(s) == n {
          SpelledValue(z, n);
        }
      }
      if AllDigits(s) then Some(DigitsValue(s)) else None
  }

  /** `Number(process.env.SMTP_PORT) || 465`: `NaN` and 0 are falsy. */
  function SmtpPort(env: Env): (r: int)
    ensures r > 0
    ensures forall z: nat, n: nat :: Lookup(env, "SMTP_PORT") == Some(Zeros(z) + Decimal(n)) ==>
              r == (if n == 0 then 465 else n)
  {
    match ParseNumber(Lookup(env, "SMTP_PORT"))
    case Some(n) => if n != 0 then n else 465
    case None => 465
  }

  /** `SMTP_SECURE === "true" || Number(SMTP_PORT) === 465`: the raw parsed
      port is tested, not the defaulted one. */
  function SmtpSecure(env: Env): (r: bool)
    ensures Lookup(env, "SMTP_SECURE") == Some("true") ==> r
    ensures forall z: nat :: Lookup(env, "SMTP_PORT") == Some(Zeros(z) + Decimal(465)) ==> r
    ensures r ==> Lookup(env, "SMTP_SECURE") == Some("true") ||
                  (Lookup(env, "SMTP_PORT").Some? && AllDigits(env["SMTP_PORT"]))
  {
    Lookup(env, "SMTP_SECURE") == Some("true") || ParseNumber(Lookup(env, "SMTP_PORT")) == Some(465)
  }

  /** A port given as a decimal number, with or without leading zeros, is
      used as is, except 0, which falls back to 465; `secure` holds exactly
      for 465 or the explicit flag. With `DigitStringSpelling` and
      `PortWithoutNumber` this covers every value of `SMTP_PORT`. */
  lemma PortFromDecimal(env: Env, z: nat, n: nat)
    requires Lookup(env, "SMTP_PORT") == Some(Zeros(z) + Decimal(n))
    ensures SmtpPort(env) == (if n == 0 then 465 else n)
    ensures SmtpSecure(env) <==> Lookup(env, "SMTP_SECURE") == Some("true") || n == 465
  {
    SpelledValue(z, n);
  }

  /** An unset, empty or non-numeric `SMTP_PORT` gives port 465, and then
      `secure` follows the `SMTP_SECURE` flag alone. */
  lemma PortWithoutNumber(env: Env)
    requires "SMTP_PORT" !in env || env["SMTP_PORT"] == "" || !AllDigits(env["SMTP_PORT"])
    ensures SmtpPort(env) == 465
    ensures SmtpSecure(env) <==> Lookup(env, "SMTP_SECURE") == Some("true")
  {
  }

  /** With neither variable set the transport talks to port 465 without
      TLS: the default port does not switch `secure` on. */
  lemma DefaultPortIsNotSecure(env: Env)
    requires "SMTP_PORT" !in env && "SMTP_SECURE" !in env
    ensures SmtpPort(env) == 465 && !SmtpSecure(env)
  {
  }

  /** Options handed to the mail transport (server.js lines 43-51). */
  datatype TransportOptions = TransportOptions(
    host: Option<string>,
    port: int,
    secure: bool,
    user: Option<string>,
    pass: Option<string>)

  function Transport(env: Env): (t: TransportOptions)
    ensures t.host == Lookup(env, "SMTP_HOST")
    ensures t.user == Lookup(env, "SMTP_USER") && t.pass == Lookup(env, "SMTP_PASS")
    ensures t.port == SmtpPort(env) && t.secure == SmtpSecure(env)
  {
    TransportOptions(
      Lookup(env, "SMTP_HOST"),
      SmtpPort(env),
      SmtpSecure(env),
      Lookup(env, "SMTP_USER"),
      Lookup(env, "SMTP_PASS"))
  }
}
