/** String operations the server's command parser relies on, with the semantics
    of the Python string methods it calls: `startswith`, `split(" ")` and
    `" ".join(...)`, and the decimal rendering of an index used in `f"{i}"`. */
module Text {

  /** `s.startswith(prefix)` */
  predicate StartsWith(s: string, prefix: string) {
    |prefix| <= |s| && s[..|prefix|] == prefix
  }

  /** `s.split(sep)` with an explicit one-character separator: every occurrence of
      `sep` cuts, so two adjacent separators give an empty part, and the result
      always has at least one part (`"".split(" ") == [""]`). */
  function Split(s: string, sep: char): (parts: seq<string>)
    ensures |parts| >= 1
    ensures forall i :: 0 <= i < |parts| ==> sep !in parts[i]
    decreases |s|
  {
    if |s| == 0 then [""]
    else
      var rest := Split(s[1..], sep);
      assert s == [s[0]] + s[1..];
      if s[0] == sep then [""] + rest
      else [[s[0]] + rest[0]] + rest[1..]
  }

  /** `sep.join(parts)` */
  function Join(sep: string, parts: seq<string>): string
    decreases |parts|
  {
    if |parts| == 0 then ""
    else if |parts| == 1 then parts[0]
    else parts[0] + sep + Join(sep, parts[1..])
  }

  /** Joining the parts of a split with the separator gives back the line. */
  lemma {:induction false} JoinSplit(s: string, sep: char)
    ensures Join([sep], Split(s, sep)) == s
    decreases |s|
  {
    if |s| > 0 {
      JoinSplit(s[1..], sep);
      var rest := Split(s[1..], sep);
      if s[0] == sep {
        JoinCons([sep], "", rest);
      } else {
        JoinExtendHead([sep], s[0], rest);
      }
      assert s == [s[0]] + s[1..];
    }
  }

  lemma JoinCons(sep: string, head: string, parts: seq<string>)
    requires |parts| >= 1
    ensures Join(sep, [head] + parts) == head + sep + Join(sep, parts)
  {
    assert ([head] + parts)[1..] == parts;
  }

  lemma JoinExtendHead(sep: string, c: char, parts: seq<string>)
    requires |parts| >= 1
    ensures Join(sep, [[c] + parts[0]] + parts[1..]) == [c] + Join(sep, parts)
  {
    var q := [[c] + parts[0]] + parts[1..];
    if |parts| > 1 {
      assert q[1..] == parts[1..];
    }
  }

  /** Splitting a join of separator-free parts gives back the parts. */
  lemma {:induction false} SplitJoin(parts: seq<string>, sep: char)
    requires |parts| >= 1
    requires forall i :: 0 <= i < |parts| ==> sep !in parts[i]
    ensures Split(Join([sep], parts), sep) == parts
    decreases |parts|
  {
    if |parts| == 1 {
      NoSeparatorSplit(parts[0], sep);
    } else {
      SplitJoin(parts[1..], sep);
      SplitAround(parts[0], sep, Join([sep], parts[1..]));
      assert parts == [parts[0]] + parts[1..];
    }
  }

  /** A string without the separator splits into itself. */
  lemma {:induction false} NoSeparatorSplit(s: string, sep: char)
    requires sep !in s
    ensures Split(s, sep) == [s]
    decreases |s|
  {
    if |s| > 0 {
      assert sep !in s[1..] by {
        forall k | 0 <= k < |s| - 1 ensures s[1..][k] != sep { assert s[1..][k] == s[k + 1]; }
      }
      NoSeparatorSplit(s[1..], sep);
      assert s == [s[0]] + s[1..];
    }
  }

  /** A separator-free head, the separator, then anything: the head is the first part. */
  lemma {:induction false} SplitAround(head: string, sep: char, tail: string)
    requires sep !in head
    ensures Split(head + [sep] + tail, sep) == [head] + Split(tail, sep)
    decreases |head|
  {
    if |head| == 0 {
      assert head + [sep] + tail == [sep] + tail;
      assert ([sep] + tail)[1..] == tail;
    } else {
      var s := head + [sep] + tail;
      assert s[1..] == head[1..] + [sep] + tail;
      assert sep !in head[1..] by {
        forall k | 0 <= k < |head| - 1 ensures head[1..][k] != sep { assert head[1..][k] == head[k + 1]; }
      }
      SplitAround(head[1..], sep, tail);
      assert head == [head[0]] + head[1..];
    }
  }

  function DigitChar(d: nat): char
    requires d < 10
  {
    "0123456789"[d]
  }

  /** `str(n)` for a natural number: its decimal digits, most significant first. */
  function Decimal(n: nat): (r: string)
    ensures 1 <= |r|
    ensures forall i :: 0 <= i < |r| ==> '0' <= r[i] <= '9'
    ensures n > 0 ==> r[0] != '0'
    decreases n
  {
    if n < 10 then [DigitChar(n)] else Decimal(n / 10) + [DigitChar(n % 10)]
  }

  /** The number a string of decimal digits denotes, most significant first. */
  function Value(ds: string): nat
    requires forall i :: 0 <= i < |ds| ==> '0' <= ds[i] <= '9'
    decreases |ds|
  {
    if |ds| == 0 then 0
    else 10 * Value(ds[..|ds| - 1]) + (ds[|ds| - 1] as int - '0' as int)
  }

  lemma DigitCharValue(d: nat)
    requires d < 10
    ensures DigitChar(d) as int - '0' as int == d
  {
    assert d == 0 || d == 1 || d == 2 || d == 3 || d == 4 || d == 5 || d == 6 || d == 7 || d == 8 || d == 9;
  }

  /** The digits of `str(n)` read back as `n`. */
  lemma {:induction false} DecimalValue(n: nat)
    ensures Value(Decimal(n)) == n
    decreases n
  {
    var r := Decimal(n);
    if n < 10 {
      DigitCharValue(n);
    } else {
      DecimalValue(n / 10);
      DigitCharValue(n % 10);
      assert r[..|r| - 1] == Decimal(n / 10);
    }
  }
}
