/** The helpers of workspace/common.go: integer times and durations, the
    day-granular comparisons, and the string-slice helpers (contains,
    normalize, Tokenize) with the pieces of Go's strings package they use. */
module Common {

  /** Go's uint64, the type of task and entry identifiers. */
  newtype uint64 = x: int | 0 <= x < 0x1_0000_0000_0000_0000

  const MinInt64: int := -0x8000_0000_0000_0000
  const MaxInt64: int := 0x7fff_ffff_ffff_ffff

  /** A time.Duration: a signed 64-bit count of nanoseconds. */
  type Duration = d: int | MinInt64 <= d <= MaxInt64

  /** A time.Time, as nanoseconds since 1970-01-01 00:00:00 in the single
      time zone of the model (local time and UTC coincide). */
  type Time = int

  /** Go's int64 arithmetic keeps the low 64 bits of a result, read as a
      two's complement number. */
  function WrapInt64(x: int): (r: Duration)
    ensures (x - r) % 0x1_0000_0000_0000_0000 == 0
    ensures MinInt64 <= x <= MaxInt64 ==> r == x
  {
    (x - MinInt64) % 0x1_0000_0000_0000_0000 + MinInt64
  }

  const Second: int := 1_000_000_000
  const Hour: int := 3600 * Second

  /** DurationDay, DurationWeek and DurationMonth of common.go. */
  const DurationDay: Duration := 24 * Hour
  const DurationWeek: Duration := 7 * DurationDay
  const DurationMonth: Duration := 4 * DurationWeek

  /** The zero time.Time, January 1 of year 1, 00:00:00 UTC. */
  const ZeroTime: Time := -62_135_596_800 * Second

  lemma DurationConstants()
    ensures DurationDay == 86_400 * Second
    ensures DurationWeek == 7 * DurationDay
    ensures DurationMonth == 28 * DurationDay
  {
  }

  /** No element of s occurs twice. */
  predicate NoDuplicates<T(==)>(s: seq<T>) {
    forall i, j :: 0 <= i < j < |s| ==> s[i] != s[j]
  }

  // ---------------------------------------------------------------------
  // Day-granular time helpers

  /** Day: the midnight that starts the day t falls on. */
  function Day(t: Time): (d: Time)
    ensures d % DurationDay == 0
    ensures d <= t < d + DurationDay
  {
    t - t % DurationDay
  }

  /** before(t1, t2): t1 falls on the same day as t2 or on an earlier one. */
  predicate Before(t1: Time, t2: Time) {
    Day(t1) <= Day(t2)
  }

  /** after(t1, t2): t1 falls on the same day as t2 or on a later one. */
  predicate After(t1: Time, t2: Time) {
    Day(t1) >= Day(t2)
  }

  /** Two midnights less than a day apart in one direction are ordered. */
  lemma MidnightsOrdered(a: Time, b: Time)
    requires a % DurationDay == 0 && b % DurationDay == 0
    requires a < b + DurationDay
    ensures a <= b
  {
    var ka, kb := a / DurationDay, b / DurationDay;
    assert a == ka * DurationDay;
    assert b == kb * DurationDay;
  }

  /** A midnight is the Day of exactly the times of the following 24 hours. */
  lemma DayUnique(t: Time, d: Time)
    requires d % DurationDay == 0 && d <= t < d + DurationDay
    ensures Day(t) == d
  {
    MidnightsOrdered(Day(t), d);
    MidnightsOrdered(d, Day(t));
  }

  lemma DayIdempotent(t: Time)
    ensures Day(Day(t)) == Day(t)
  {
    DayUnique(Day(t), Day(t));
  }

  /** before(t1, t2) holds exactly when t1 is earlier than the midnight that
      ends t2's day. */
  lemma BeforeMeansEarlierThanDayEnd(t1: Time, t2: Time)
    ensures Before(t1, t2) <==> t1 < Day(t2) + DurationDay
  {
    if t1 < Day(t2) + DurationDay {
      MidnightsOrdered(Day(t1), Day(t2));
    }
  }

  /** after(t1, t2) holds exactly when t1 is at or after the midnight that
      starts t2's day. */
  lemma AfterMeansFromDayStart(t1: Time, t2: Time)
    ensures After(t1, t2) <==> t1 >= Day(t2)
  {
    if t1 >= Day(t2) {
      MidnightsOrdered(Day(t2), Day(t1));
    }
  }

  /** At least one of before and after holds; both hold iff the two times fall
      on the same day. */
  lemma BeforeOrAfter(t1: Time, t2: Time)
    ensures Before(t1, t2) || After(t1, t2)
    ensures Before(t1, t2) && After(t1, t2) <==> Day(t1) == Day(t2)
  {
  }

  // ---------------------------------------------------------------------
  // contains

  /** contains(s, ss): an early-return search for s among ss. */
  method Contains(s: string, ss: seq<string>) returns (found: bool)
    ensures found <==> s in ss
  {
    for i := 0 to |ss|
      invariant s !in ss[..i]
    {
      if ss[i] == s {
        return true;
      }
    }
    return false;
  }

  // ---------------------------------------------------------------------
  // strings.TrimSpace

  /** unicode.IsSpace: the Latin-1 spaces and the Unicode space separators. */
  predicate IsSpace(c: char) {
    || c == ' '
    || '\t' <= c <= '\r'
    || c == '\U{0085}' || c == '\U{00A0}' || c == '\U{1680}'
    || '\U{2000}' <= c <= '\U{200A}'
    || c == '\U{2028}' || c == '\U{2029}' || c == '\U{202F}'
    || c == '\U{205F}' || c == '\U{3000}'
  }

  /** The number of white-space characters s starts with. */
  function LeadingSpaces(s: string): (n: nat)
    ensures n <= |s|
    ensures forall i :: 0 <= i < n ==> IsSpace(s[i])
    ensures n < |s| ==> !IsSpace(s[n])
  {
    if s == [] || !IsSpace(s[0]) then 0 else 1 + LeadingSpaces(s[1..])
  }

  /** The number of white-space characters s ends with. */
  function TrailingSpaces(s: string): (n: nat)
    ensures n <= |s|
    ensures forall i :: |s| - n <= i < |s| ==> IsSpace(s[i])
    ensures n < |s| ==> !IsSpace(s[|s| - 1 - n])
  {
    if s == [] || !IsSpace(s[|s| - 1]) then 0 else 1 + TrailingSpaces(s[..|s| - 1])
  }

  /** r is the part of s at offset a, and everything of s around it is white space. */
  ghost predicate TrimmedAt(s: string, r: string, a: int) {
    && 0 <= a && a + |r| <= |s|
    && s[a..a + |r|] == r
    && (forall i :: 0 <= i < a ==> IsSpace(s[i]))
    && (forall i :: a + |r| <= i < |s| ==> IsSpace(s[i]))
  }

  /** strings.TrimSpace: s without its leading and trailing white space. */
  function TrimSpace(s: string): (r: string)
    ensures r == [] <==> forall i :: 0 <= i < |s| ==> IsSpace(s[i])
    ensures r != [] ==> !IsSpace(r[0]) && !IsSpace(r[|r| - 1])
  {
    var a := LeadingSpaces(s);
    if a == |s| then []
    else
      var b := |s| - TrailingSpaces(s);
      assert a < b;
      s[a..b]
  }

  /** What TrimSpace removes is white space at the two ends of s, and what
      it keeps is a run of s. */
  lemma TrimSpaceIsInfix(s: string)
    ensures exists a :: TrimmedAt(s, TrimSpace(s), a)
  {
    var a := LeadingSpaces(s);
    if a == |s| {
      assert TrimSpace(s) == [];
      assert TrimmedAt(s, [], 0);
    } else {
      var b := |s| - TrailingSpaces(s);
      assert TrimSpace(s) == s[a..b];
      assert TrimmedAt(s, s[a..b], a);
    }
  }

  lemma TrimSpaceIdempotent(s: string)
    ensures TrimSpace(TrimSpace(s)) == TrimSpace(s)
  {
    var r := TrimSpace(s);
    if r != [] {
      assert LeadingSpaces(r) == 0;
      assert TrailingSpaces(r) == 0;
      assert r[0..|r|] == r;
    }
  }

  // ---------------------------------------------------------------------
  // normalize

  /** What normalize returns: the trimmed elements of ins that are not
      empty, in the order of ins. */
  function Normalized(ins: seq<string>): (out: seq<string>)
    ensures |out| <= |ins|
    ensures forall i :: 0 <= i < |out| ==> out[i] != [] && TrimSpace(out[i]) == out[i]
  {
    if ins == [] then []
    else
      var rest := Normalized(ins[..|ins| - 1]);
      var token := TrimSpace(ins[|ins| - 1]);
      TrimSpaceIdempotent(ins[|ins| - 1]);
      if token == [] then rest else rest + [token]
  }

  /** normalize: the loop that collects the non-empty trimmed elements. */
  method Normalize(ins: seq<string>) returns (out: seq<string>)
    ensures out == Normalized(ins)
  {
    out := [];
    for i := 0 to |ins|
      invariant out == Normalized(ins[..i])
    {
      var token := TrimSpace(ins[i]);
      assert ins[..i + 1][..i] == ins[..i];
      if |token| != 0 {
        out := out + [token];
      }
    }
    assert ins[..|ins|] == ins;
  }

  /** A string is in normalize's output iff it is the non-empty trimming of
      some input element. */
  lemma {:induction false} NormalizedMember(ins: seq<string>, x: string)
    ensures x in Normalized(ins) <==> x != [] && exists p :: p in ins && TrimSpace(p) == x
  {
    if ins != [] {
      var init, last := ins[..|ins| - 1], ins[|ins| - 1];
      NormalizedMember(init, x);
      assert ins == init + [last];
      TrimsToAppend(init, last, x);
      var token, n := TrimSpace(last), Normalized(init);
      if token == [] {
        assert Normalized(ins) == n;
      } else {
        assert Normalized(ins) == n + [token];
        assert x in n + [token] <==> x in n || x == token;
      }
    }
  }

  /** Some element of init + [last] trims to x iff some element of init
      does or last does. */
  lemma TrimsToAppend(init: seq<string>, last: string, x: string)
    ensures (exists p :: p in init + [last] && TrimSpace(p) == x) <==>
            (exists p :: p in init && TrimSpace(p) == x) || TrimSpace(last) == x
  {
    if TrimSpace(last) != x {
      if p :| p in init + [last] && TrimSpace(p) == x {
        assert p in init;
      }
    } else {
      assert last in init + [last];
    }
  }

  lemma NormalizedMembers(ins: seq<string>)
    ensures forall x :: x in Normalized(ins) <==> x != [] && exists p :: p in ins && TrimSpace(p) == x
  {
    forall x {
      NormalizedMember(ins, x);
    }
  }

  /** normalize works element by element: it distributes over concatenation,
      so it keeps the input order. */
  lemma {:induction false} NormalizedAppend(a: seq<string>, b: seq<string>)
    ensures Normalized(a + b) == Normalized(a) + Normalized(b)
  {
    if b == [] {
      assert a + b == a;
    } else {
      var b' := b[..|b| - 1];
      assert (a + b)[..|a + b| - 1] == a + b';
      assert (a + b)[|a + b| - 1] == b[|b| - 1];
      NormalizedAppend(a, b');
    }
  }

  lemma {:induction false} NormalizedIdempotent(ins: seq<string>)
    ensures Normalized(Normalized(ins)) == Normalized(ins)
  {
    if ins != [] {
      var init := ins[..|ins| - 1];
      NormalizedIdempotent(init);
      var token := TrimSpace(ins[|ins| - 1]);
      if token != [] {
        TrimSpaceIdempotent(ins[|ins| - 1]);
        NormalizedAppend(Normalized(init), [token]);
        assert [token][..0] == [];
      }
    }
  }

  // ---------------------------------------------------------------------
  // strings.Index, strings.Split and Tokenize

  /** sep occurs in s at offset k. */
  predicate OccursAt(s: string, sep: string, k: int) {
    0 <= k && k + |sep| <= |s| && s[k..k + |sep|] == sep
  }

  /** The first offset at or after k where sep occurs in s, or -1. */
  function IndexFrom(s: string, sep: string, k: nat): (r: int)
    requires k <= |s|
    ensures r == -1 || (k <= r && OccursAt(s, sep, r))
    ensures forall j :: k <= j && (r == -1 || j < r) ==> !OccursAt(s, sep, j)
    decreases |s| - k
  {
    if k + |sep| > |s| then -1
    else if s[k..k + |sep|] == sep then k
    else IndexFrom(s, sep, k + 1)
  }

  /** strings.Split(s, sep): the pieces of s between the non-overlapping
      occurrences of sep, found left to right; an empty sep splits s into
      its characters. */
  function Split(s: string, sep: string): (parts: seq<string>)
    ensures sep != [] ==> |parts| >= 1
    decreases |s|
  {
    if sep == [] then seq(|s|, i requires 0 <= i < |s| => [s[i]])
    else
      var i := IndexFrom(s, sep, 0);
      if i < 0 then [s] else [s[..i]] + Split(s[i + |sep|..], sep)
  }

  /** strings.Join, the inverse of Split. */
  function Join(parts: seq<string>, sep: string): string {
    if parts == [] then []
    else if |parts| == 1 then parts[0]
    else parts[0] + sep + Join(parts[1..], sep)
  }

  /** Joining the pieces of a split with the separator gives back the string. */
  lemma {:induction false} SplitJoin(s: string, sep: string)
    ensures Join(Split(s, sep), sep) == s
    decreases |s|
  {
    var parts := Split(s, sep);
    if sep == [] {
      if |s| > 1 {
        SplitJoin(s[1..], sep);
        assert parts[0] == [s[0]];
        assert parts[1..] == Split(s[1..], sep);
        assert Join(parts, sep) == [s[0]] + Join(Split(s[1..], sep), sep);
        assert s == [s[0]] + s[1..];
      } else if |s| == 1 {
        assert parts == [[s[0]]];
      } else {
        assert parts == [];
      }
    } else {
      var i := IndexFrom(s, sep, 0);
      if i >= 0 {
        var rest := s[i + |sep|..];
        SplitJoin(rest, sep);
        assert parts[1..] == Split(rest, sep);
        assert s == s[..i] + sep + rest;
      }
    }
  }

  /** sep occurs nowhere in p. */
  ghost predicate Free(p: string, sep: string) {
    forall k :: !OccursAt(p, sep, k)
  }

  /** With a non-empty separator, no piece of a split contains the separator. */
  lemma {:induction false} SplitPiecesFree(s: string, sep: string)
    requires sep != []
    ensures forall j :: 0 <= j < |Split(s, sep)| ==> Free(Split(s, sep)[j], sep)
    decreases |s|
  {
    var parts := Split(s, sep);
    var i := IndexFrom(s, sep, 0);
    if i >= 0 {
      var rest := s[i + |sep|..];
      SplitPiecesFree(rest, sep);
      forall k | OccursAt(s[..i], sep, k)
        ensures OccursAt(s, sep, k) && k < i
      {
        assert s[..i][k..k + |sep|] == s[k..k + |sep|];
      }
      assert parts == [s[..i]] + Split(rest, sep);
      forall j | 0 <= j < |parts|
        ensures Free(parts[j], sep)
      {
        if j > 0 {
          assert parts[j] == Split(rest, sep)[j - 1];
        }
      }
    } else {
      assert parts == [s];
    }
  }

  /** Tokenize(s, sep): the split pieces of s, trimmed, with the empty ones
      dropped. */
  function Tokenize(s: string, sep: string): (tokens: seq<string>)
    ensures |tokens| <= |Split(s, sep)|
    ensures forall i :: 0 <= i < |tokens| ==> tokens[i] != [] && TrimSpace(tokens[i]) == tokens[i]
    ensures forall x :: x in tokens <==> x != [] && exists p :: p in Split(s, sep) && TrimSpace(p) == x
  {
    var ss := Split(s, sep);
    NormalizedMembers(ss);
    if |ss| == 0 then [] else Normalized(ss)
  }
}
