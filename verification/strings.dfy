/** Small facts about strings (`seq<char>`) used by the renderers and their
    decoders: prefixes, suffixes, line splitting, joining and containment. */
module Strings {
  import opened Wrappers

  /** `sub` occurs somewhere inside `s`. */
  ghost predicate Contains(s: string, sub: string)
  {
    exists i :: OccursAt(s, sub, i)
  }

  /** `sub` occurs in `s` starting at index `i`. */
  predicate OccursAt(s: string, sub: string, i: int)
  {
    0 <= i <= |s| - |sub| && s[i..i + |sub|] == sub
  }

  /** Removes the prefix `p` from `s`, when `s` starts with it. */
  function StripPrefix(s: string, p: string): (r: Option<string>)
    ensures r.Some? <==> |p| <= |s| && s[..|p|] == p
    ensures r.Some? ==> s == p + r.value
  {
    if |p| <= |s| && s[..|p|] == p then
      assert s == s[..|p|] + s[|p|..];
      Some(s[|p|..])
    else None
  }

  /** Removes the suffix `q` from `s`, when `s` ends with it. */
  function StripSuffix(s: string, q: string): (r: Option<string>)
    ensures r.Some? <==> |q| <= |s| && s[|s| - |q|..] == q
    ensures r.Some? ==> s == r.value + q
  {
    if |q| <= |s| && s[|s| - |q|..] == q then
      assert s == s[..|s| - |q|] + s[|s| - |q|..];
      Some(s[..|s| - |q|])
    else None
  }

  lemma StripPrefixOfConcat(p: string, x: string)
    ensures StripPrefix(p + x, p) == Some(x)
  {
    assert (p + x)[..|p|] == p;
  }

  lemma StripSuffixOfConcat(x: string, q: string)
    ensures StripSuffix(x + q, q) == Some(x)
  {
    assert (x + q)[|x + q| - |q|..] == q;
  }

  /** Splits `s` at its first newline into the line before it and the text
      after it; `None` when `s` holds no newline. */
  function TakeLine(s: string): (r: Option<(string, string)>)
    ensures r.Some? <==> '\n' in s
    ensures r.Some? ==> '\n' !in r.value.0 && s == r.value.0 + "\n" + r.value.1
  {
    if |s| == 0 then None
    else if s[0] == '\n' then
      assert s == "" + "\n" + s[1..];
      Some(("", s[1..]))
    else
      match TakeLine(s[1..])
      case None => None
      case Some((line, rest)) =>
        assert s == [s[0]] + s[1..];
        Some(([s[0]] + line, rest))
  }

  /** The first line is recovered exactly when it holds no newline of its own. */
  lemma {:induction false} TakeLineOfConcat(line: string, rest: string)
    requires '\n' !in line
    ensures TakeLine(line + "\n" + rest) == Some((line, rest))
  {
    var s := line + "\n" + rest;
    if |line| == 0 {
      assert s[1..] == rest;
    } else {
      assert s[0] == line[0];
      assert s[1..] == line[1..] + "\n" + rest;
      TakeLineOfConcat(line[1..], rest);
      assert [s[0]] + line[1..] == line;
    }
  }

  /** One line of text: `prefix + field + suffix` and its newline. */
  function Line(prefix: string, field: string, suffix: string): string
  {
    prefix + field + suffix + "\n"
  }

  /** Reads one line of the shape `Line(prefix, field, suffix)` and returns
      the field and the text after the line. */
  function ExpectLine(s: string, prefix: string, suffix: string): (r: Option<(string, string)>)
    ensures r.Some? ==> s == Line(prefix, r.value.0, suffix) + r.value.1
    ensures r.Some? ==> '\n' !in prefix + r.value.0 + suffix
  {
    match TakeLine(s)
    case None => None
    case Some((line, rest)) =>
      match StripPrefix(line, prefix)
      case None => None
      case Some(tail) =>
        match StripSuffix(tail, suffix)
        case None => None
        case Some(field) =>
          assert line == prefix + field + suffix;
          Some((field, rest))
  }

  lemma ExpectLineOfConcat(prefix: string, field: string, suffix: string, rest: string)
    requires '\n' !in prefix + field + suffix
    ensures ExpectLine(Line(prefix, field, suffix) + rest, prefix, suffix) == Some((field, rest))
  {
    TakeLineOfConcat(prefix + field + suffix, rest);
    assert Line(prefix, field, suffix) + rest == (prefix + field + suffix) + "\n" + rest;
    assert prefix + field + suffix == prefix + (field + suffix);
    StripPrefixOfConcat(prefix, field + suffix);
    StripSuffixOfConcat(field, suffix);
  }

  /** Joins `parts` with `sep` between neighbours, as JavaScript's
      `Array.prototype.join` does. */
  function Join(parts: seq<string>, sep: string): (r: string)
    ensures |parts| == 1 ==> r == parts[0]
  {
    if |parts| == 0 then ""
    else if |parts| == 1 then parts[0]
    else parts[0] + sep + Join(parts[1..], sep)
  }

  lemma JoinUnfold(parts: seq<string>, sep: string)
    requires |parts| > 1
    ensures Join(parts, sep) == parts[0] + (sep + Join(parts[1..], sep))
  {
  }

  /** Every joined part occurs in the joined string. */
  lemma {:induction false} JoinContainsPart(parts: seq<string>, sep: string, i: nat)
    requires i < |parts|
    ensures Contains(Join(parts, sep), parts[i])
  {
    var j := Join(parts, sep);
    if |parts| == 1 {
      assert OccursAt(j, parts[0], 0);
    } else if i == 0 {
      assert j == parts[0] + (sep + Join(parts[1..], sep));
      assert OccursAt(j, parts[0], 0);
    } else {
      var tail := Join(parts[1..], sep);
      JoinContainsPart(parts[1..], sep, i - 1);
      var k :| OccursAt(tail, parts[i], k);
      var off := |parts[0] + sep|;
      assert j == (parts[0] + sep) + tail;
      assert j[off + k..off + k + |parts[i]|] == tail[k..k + |parts[i]|];
      assert OccursAt(j, parts[i], off + k);
    }
  }

  lemma NoNewlineInConcat(a: string, b: string, c: string)
    requires '\n' !in a && '\n' !in b && '\n' !in c
    ensures '\n' !in a + b + c
  {
  }
}
