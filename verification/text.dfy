/**
 * Text helpers on `string` (= `seq<char>`): the library string operations the
 * bot relies on (`strings.Join`, and for reading text back, splitting at a
 * separator), and two small readers used by the parsers that invert the
 * bot's text builders.
 */
module Text {
  import opened Wrappers

  /** Some(rest) exactly when `s` begins with `prefix`; `rest` is what follows it. */
  function Expect(prefix: string, s: string): (r: Option<string>)
    ensures r.Some? <==> prefix <= s
    ensures r.Some? ==> s == prefix + r.value
  {
    if prefix <= s then Some(s[|prefix|..]) else None
  }

  /**
   * Reads `s` up to the first `stop`: Some((field, rest)) with
   * s == field + [stop] + rest and no `stop` inside `field`;
   * None exactly when `stop` does not occur in `s`.
   */
  function ReadUntil(s: string, stop: char): (r: Option<(string, string)>)
    ensures r.None? <==> stop !in s
    ensures r.Some? ==> s == r.value.0 + [stop] + r.value.1 && stop !in r.value.0
  {
    if s == [] then None
    else if s[0] == stop then Some(([], s[1..]))
    else
      match ReadUntil(s[1..], stop)
      case None => None
      case Some(p) => Some(([s[0]] + p.0, p.1))
  }

  /** `ReadUntil` finds the first `stop`, so a field free of `stop` is read back whole. */
  lemma {:induction false} ReadUntilField(field: string, stop: char, rest: string)
    requires stop !in field
    ensures ReadUntil(field + [stop] + rest, stop) == Some((field, rest))
  {
    var s := field + [stop] + rest;
    if field != [] {
      assert s[0] == field[0];
      assert s[1..] == field[1..] + [stop] + rest;
      assert field[0] in field;
      ReadUntilField(field[1..], stop, rest);
      assert [field[0]] + field[1..] == field;
    } else {
      assert s[1..] == rest;
    }
  }

  /** Regrouping a concatenation of three texts. */
  lemma AppendAssoc(a: string, b: string, c: string)
    ensures (a + b) + c == a + (b + c)
  {
  }

  /** Go's `strings.Join(parts, string(sep))`: the parts with one `sep` between neighbours. */
  function Join(parts: seq<string>, sep: char): (r: string)
  {
    if |parts| == 0 then []
    else if |parts| == 1 then parts[0]
    else parts[0] + [sep] + Join(parts[1..], sep)
  }

  /** Go's `strings.Split(s, string(sep))`: the pieces between separators; never empty. */
  function Split(s: string, sep: char): (r: seq<string>)
    ensures |r| >= 1
    ensures forall i :: 0 <= i < |r| ==> sep !in r[i]
    decreases |s|
  {
    match ReadUntil(s, sep)
    case None => [s]
    case Some(p) => [p.0] + Split(p.1, sep)
  }

  /** Splitting a joined list gives the list back, when no part holds the separator. */
  lemma {:induction false} SplitJoin(parts: seq<string>, sep: char)
    requires |parts| >= 1
    requires forall i :: 0 <= i < |parts| ==> sep !in parts[i]
    ensures Split(Join(parts, sep), sep) == parts
  {
    if |parts| > 1 {
      ReadUntilField(parts[0], sep, Join(parts[1..], sep));
      SplitJoin(parts[1..], sep);
      assert [parts[0]] + parts[1..] == parts;
    }
  }

  /** Joining the pieces of a split gives the text back. */
  lemma {:induction false} JoinSplit(s: string, sep: char)
    ensures Join(Split(s, sep), sep) == s
    decreases |s|
  {
    match ReadUntil(s, sep)
    case None =>
    case Some(p) =>
      JoinSplit(p.1, sep);
      var r := Split(s, sep);
      assert r[1..] == Split(p.1, sep);
  }

  /** Joining `parts` with `last` on the end: the same as joining and appending to the last part. */
  lemma {:induction false} JoinAppendLast(parts: seq<string>, sep: char, tail: string)
    requires |parts| >= 1
    ensures Join(parts[..|parts| - 1] + [parts[|parts| - 1] + tail], sep) == Join(parts, sep) + tail
  {
    var n := |parts|;
    var q := parts[..n - 1] + [parts[n - 1] + tail];
    if n > 1 {
      JoinAppendLast(parts[1..], sep, tail);
      assert q[1..] == parts[1..][..n - 2] + [parts[1..][n - 2] + tail];
    }
  }

  /** Number of occurrences of `c` in `s`. */
  function CountChar(s: string, c: char): (r: nat)
    ensures r <= |s|
    ensures r == 0 <==> c !in s
  {
    if s == [] then 0
    else (if s[0] == c then 1 else 0) + CountChar(s[1..], c)
  }

  lemma {:induction false} CountCharAppend(a: string, b: string, c: char)
    ensures CountChar(a + b, c) == CountChar(a, c) + CountChar(b, c)
  {
    if a != [] {
      assert (a + b)[1..] == a[1..] + b;
      CountCharAppend(a[1..], b, c);
    } else {
      assert a + b == b;
    }
  }

  /** A join of separator-free parts holds exactly one separator between neighbours. */
  lemma {:induction false} JoinSeparatorCount(parts: seq<string>, sep: char)
    requires forall i :: 0 <= i < |parts| ==> sep !in parts[i]
    ensures CountChar(Join(parts, sep), sep) == if |parts| == 0 then 0 else |parts| - 1
  {
    if |parts| > 1 {
      JoinSeparatorCount(parts[1..], sep);
      CountCharAppend(parts[0] + [sep], Join(parts[1..], sep), sep);
      CountCharAppend(parts[0], [sep], sep);
    }
  }
}
