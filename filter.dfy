/** workspace/filter.go: filters over task sets, and the query language
    that builds a chain of them from command-line words.

    A Go Filter is a closure TaskSet -> TaskSet. Every closure the package
    builds is one of a fixed set of shapes, so a Filter here is a datatype
    naming the shape and the values it captured; Apply runs it. Keeps is the
    test each shape applies to a single task, written in plain time
    arithmetic, and Apply is proved to keep exactly the tasks passing it. */
module Filters {
  import opened Common
  import opened Wrappers
  import opened Calendar
  import opened Tasks

  /** The regular-expression engine of package regexp, which is not part of
      this model: whether a pattern compiles, and whether a compiled
      pattern matches somewhere in a string. */
  datatype Regex = Regex(compiles: string -> bool, matches: (string, string) -> bool)

  /** The errors the query language reports. */
  datatype Error =
    | InvalidStatus            // "workspace: invalid completion status"
    | UnmatchedTag(word: string) // "workspace: unmatched tag " + word
    | BadDate(date: string)    // time.Parse rejected the date
    | BadNumber(digits: string) // strconv.Atoi rejected the count of a duration
    | BadPattern(pattern: string) // regexp.Compile rejected a title pattern

  /** The closures of filter.go, by the values they capture. */
  datatype Filter =
    | KeepCompleted               // CompletedFilter
    | KeepUncompleted             // UncompletedFilter
    | WithTag(tag: string)        // TagFilter
    | WithTags(tags: seq<string>) // TagsFilter
    | AtLeastPriority(pri: Priority) // PriorityFilter
    | FinishedBy(date: Time)      // CompletedBefore
    | CreatedBefore(date: Time)   // StartedBefore
    | FinishedFrom(date: Time)    // CompletedAfter
    | CreatedAfter(date: Time)    // StartedAfter
    | TitleMatches(pattern: string) // TitleFilter
    | CompletedWithin(dur: Duration) // DurationFilter

  /** A filter together with the time it is bounded by. */
  datatype Bound = Bound(filter: Filter, date: Time)

  /** The test a filter applies to one task. now is the clock reading when
      the filter runs; re is the regular-expression engine. */
  predicate Keeps(f: Filter, t: Task, now: Time, re: Regex) {
    match f
    case KeepCompleted => t.done
    case KeepUncompleted => !t.done
    case WithTag(tag) => tag in t.tags
    case WithTags(tags) => HasAllTags(t, tags)
    case AtLeastPriority(pri) => t.priority >= pri
    case FinishedBy(date) => t.finished < Day(date) + DurationDay
    case CreatedBefore(date) => t.created < date
    case FinishedFrom(date) => t.finished >= Day(date)
    case CreatedAfter(date) => t.created > date
    case TitleMatches(pattern) => re.matches(pattern, t.title)
    case CompletedWithin(dur) => t.done && t.finished > WindowStart(now, dur)
  }

  /** Keeps is the test each closure of filter.go applies: before() and
      after() of the task's finish time for the completion bounds,
      time.Before and time.After of its creation time for the creation
      bounds, and CompletedDuration's window for a look-back. */
  lemma KeepsAsClosures(f: Filter, t: Task, now: Time, re: Regex)
    ensures f.FinishedBy? ==> (Keeps(f, t, now, re) <==> Before(t.finished, f.date))
    ensures f.FinishedFrom? ==> (Keeps(f, t, now, re) <==> After(t.finished, f.date))
    ensures f.CreatedBefore? ==> (Keeps(f, t, now, re) <==> t.created < f.date)
    ensures f.CreatedAfter? ==> (Keeps(f, t, now, re) <==> t.created > f.date)
    ensures f.CompletedWithin? ==> (Keeps(f, t, now, re) <==> 0 in CompletedDuration(map[0 := t], f.dur, now))
  {
    BeforeMeansEarlierThanDayEnd(t.finished, if f.FinishedBy? then f.date else 0);
    AfterMeansFromDayStart(t.finished, if f.FinishedFrom? then f.date else 0);
  }

  // ---------------------------------------------------------------------
  // The filters

  /** CompletedFilter: the done tasks. */
  function CompletedFilter(ts: TaskSet): (r: TaskSet)
    ensures SubsetOf(r, ts)
    ensures forall id :: id in ts ==> (id in r <==> ts[id].done)
  {
    map id | id in ts && ts[id].done :: ts[id]
  }

  /** UncompletedFilter: the tasks not done. */
  function UncompletedFilter(ts: TaskSet): (r: TaskSet)
    ensures SubsetOf(r, ts)
    ensures forall id :: id in ts ==> (id in r <==> !ts[id].done)
  {
    map id | id in ts && !ts[id].done :: ts[id]
  }

  /** Every task is either completed or uncompleted, never both: the two
      status filters split a task set in two. */
  lemma StatusFiltersPartition(ts: TaskSet)
    ensures CompletedFilter(ts).Keys !! UncompletedFilter(ts).Keys
    ensures CompletedFilter(ts) + UncompletedFilter(ts) == ts
  {
    var both := CompletedFilter(ts) + UncompletedFilter(ts);
    assert both.Keys == ts.Keys;
  }

  /** Running a filter: the shapes the Go closures take. */
  function Apply(f: Filter, ts: TaskSet, now: Time, re: Regex): (r: TaskSet)
    ensures SubsetOf(r, ts)
    ensures forall id :: id in ts ==> (id in r <==> Keeps(f, ts[id], now, re))
  {
    match f
    case KeepCompleted => CompletedFilter(ts)
    case KeepUncompleted => UncompletedFilter(ts)
    case WithTag(tag) => FilterTag(ts, tag)
    case WithTags(tags) => FilterTags(ts, tags)
    case AtLeastPriority(pri) => FilterPriority(ts, pri)
    case FinishedBy(date) =>
      BeforeEndOfDay(date);
      map id | id in ts && Before(ts[id].finished, date) :: ts[id]
    case CreatedBefore(date) => map id | id in ts && ts[id].created < date :: ts[id]
    case FinishedFrom(date) =>
      AfterStartOfDay(date);
      map id | id in ts && After(ts[id].finished, date) :: ts[id]
    case CreatedAfter(date) => map id | id in ts && ts[id].created > date :: ts[id]
    case TitleMatches(pattern) => map id | id in ts && re.matches(pattern, ts[id].title) :: ts[id]
    case CompletedWithin(dur) => CompletedDuration(ts, dur, now)
  }

  /** before(t, date) for every t, in plain time arithmetic. */
  lemma BeforeEndOfDay(date: Time)
    ensures forall t :: Before(t, date) <==> t < Day(date) + DurationDay
  {
    forall t {
      BeforeMeansEarlierThanDayEnd(t, date);
    }
  }

  /** after(t, date) for every t, in plain time arithmetic. */
  lemma AfterStartOfDay(date: Time)
    ensures forall t :: After(t, date) <==> t >= Day(date)
  {
    forall t {
      AfterMeansFromDayStart(t, date);
    }
  }

  /** TagFilter: keeps the tasks carrying the tag, with the white space
      around the tag removed first. */
  function TagFilter(tag: string): (f: Filter)
    ensures forall t: Task, now: Time, re: Regex :: Keeps(f, t, now, re) <==> TrimSpace(tag) in t.tags
  {
    WithTag(TrimSpace(tag))
  }

  /** TagsFilter: keeps the tasks carrying every tag of tags that is not
      blank, each compared with its white space removed. */
  function TagsFilter(tags: seq<string>): (f: Filter)
    ensures forall t: Task, now: Time, re: Regex :: Keeps(f, t, now, re) <==>
      (forall p :: p in tags && TrimSpace(p) != [] ==> TrimSpace(p) in t.tags)
  {
    NormalizedMembers(tags);
    WithTags(Normalized(tags))
  }

  /** PriorityFilter: keeps the tasks of at least priority pri. */
  function PriorityFilter(pri: Priority): (f: Filter)
    ensures forall t: Task, now: Time, re: Regex :: Keeps(f, t, now, re) <==> t.priority >= pri
  {
    AtLeastPriority(pri)
  }

  /** CompletedBefore: for a date that parses, keeps the tasks finished
      before the end of that day, done or not. */
  function CompletedBefore(date: string): (r: Result<Bound, Error>)
    ensures r.Ok? <==> ParseDate(date).Some?
    ensures r.Err? ==> r.error == BadDate(date)
    ensures r.Ok? ==> r.value.date == ParseDate(date).value
    ensures r.Ok? ==> forall t: Task, now: Time, re: Regex ::
      Keeps(r.value.filter, t, now, re) <==> t.finished < r.value.date + DurationDay
  {
    match ParseDate(date)
    case None => Err(BadDate(date))
    case Some(d) => Ok(Bound(FinishedBy(d), d))
  }

  /** StartedBefore: for a date that parses, keeps the tasks created
      strictly before its midnight. */
  function StartedBefore(date: string): (r: Result<Bound, Error>)
    ensures r.Ok? <==> ParseDate(date).Some?
    ensures r.Err? ==> r.error == BadDate(date)
    ensures r.Ok? ==> r.value.date == ParseDate(date).value
    ensures r.Ok? ==> forall t: Task, now: Time, re: Regex ::
      Keeps(r.value.filter, t, now, re) <==> t.created < r.value.date
  {
    match ParseDate(date)
    case None => Err(BadDate(date))
    case Some(d) => Ok(Bound(CreatedBefore(d), d))
  }

  /** CompletedAfter: for a date that parses, keeps the tasks finished from
      its midnight on, done or not. */
  function CompletedAfter(date: string): (r: Result<Bound, Error>)
    ensures r.Ok? <==> ParseDate(date).Some?
    ensures r.Err? ==> r.error == BadDate(date)
    ensures r.Ok? ==> r.value.date == ParseDate(date).value
    ensures r.Ok? ==> forall t: Task, now: Time, re: Regex ::
      Keeps(r.value.filter, t, now, re) <==> t.finished >= r.value.date
  {
    match ParseDate(date)
    case None => Err(BadDate(date))
    case Some(d) => Ok(Bound(FinishedFrom(d), d))
  }

  /** StartedAfter: for a date that parses, keeps the tasks created
      strictly after its midnight. */
  function StartedAfter(date: string): (r: Result<Bound, Error>)
    ensures r.Ok? <==> ParseDate(date).Some?
    ensures r.Err? ==> r.error == BadDate(date)
    ensures r.Ok? ==> r.value.date == ParseDate(date).value
    ensures r.Ok? ==> forall t: Task, now: Time, re: Regex ::
      Keeps(r.value.filter, t, now, re) <==> t.created > r.value.date
  {
    match ParseDate(date)
    case None => Err(BadDate(date))
    case Some(d) => Ok(Bound(CreatedAfter(d), d))
  }

  /** TitleFilter: for a pattern that compiles, keeps the tasks whose title
      it matches. */
  function TitleFilter(title: string, re: Regex): (r: Result<Filter, Error>)
    ensures r.Ok? <==> re.compiles(title)
    ensures r.Err? ==> r.error == BadPattern(title)
    ensures r.Ok? ==> forall t: Task, now: Time :: Keeps(r.value, t, now, re) <==> re.matches(title, t.title)
  {
    if re.compiles(title) then Ok(TitleMatches(title)) else Err(BadPattern(title))
  }

  // ---------------------------------------------------------------------
  // Durations: the pattern (\d*)([hdwm])

  /** One of the period letters: hours, days, weeks, months. */
  predicate IsUnit(c: char) {
    c == 'h' || c == 'd' || c == 'w' || c == 'm'
  }

  /** The length of one period: time.Hour, DurationDay, DurationWeek or
      DurationMonth (four weeks). */
  function UnitLength(c: char): (d: Duration)
    requires IsUnit(c)
    ensures d > 0
  {
    if c == 'h' then Hour
    else if c == 'd' then DurationDay
    else if c == 'w' then DurationWeek
    else DurationMonth
  }

  /** s holds a period letter somewhere. */
  predicate HasUnit(s: string) {
    exists i :: 0 <= i < |s| && IsUnit(s[i])
  }

  /** The position of the first period letter of s. */
  function FirstUnit(s: string): (q: nat)
    requires HasUnit(s)
    ensures q < |s| && IsUnit(s[q])
    ensures forall i :: 0 <= i < q ==> !IsUnit(s[i])
  {
    if IsUnit(s[0]) then 0
    else
      assert exists i :: 0 <= i < |s[1..]| && IsUnit(s[1..][i]) by {
        var i :| 0 <= i < |s| && IsUnit(s[i]);
        assert s[1..][i - 1] == s[i];
      }
      1 + FirstUnit(s[1..])
  }

  /** The start of the longest run of digits that ends at position q of s. */
  function DigitRunBefore(s: string, q: nat): (p: nat)
    requires q <= |s|
    ensures p <= q && AllDigits(s[p..q])
    ensures p == 0 || !IsDigit(s[p - 1])
    decreases q
  {
    if q == 0 || !IsDigit(s[q - 1]) then q
    else
      var p := DigitRunBefore(s, q - 1);
      assert s[p..q] == s[p..q - 1] + [s[q - 1]];
      p
  }

  /** strconv.Atoi on a run of decimal digits: no digits at all, or a value
      beyond int64, is an error. */
  function Atoi(digits: string): (r: Result<int, Error>)
    requires AllDigits(digits)
    ensures r.Ok? <==> digits != [] && DigitsValue(digits) <= MaxInt64
    ensures r.Ok? ==> 0 <= r.value <= MaxInt64 && r.value == DigitsValue(digits)
    ensures r.Err? ==> r.error == BadNumber(digits)
  {
    if digits == [] || DigitsValue(digits) > MaxInt64 then Err(BadNumber(digits))
    else Ok(DigitsValue(digits))
  }

  /** Every int64 count written in decimal, with or without leading zeros,
      is read back by Atoi. */
  lemma AtoiPadded(n: nat, width: nat)
    requires n <= MaxInt64
    ensures Atoi(PadDigits(n, width)) == Ok(n)
  {
    PadDigitsValue(n, width);
  }

  /** DurationFilter: the first match of (\d*)([hdwm]) in durs is the
      period letter that comes first together with all the digits right
      before it. Its count times the period, in 64-bit arithmetic, is the
      look-back; the filter keeps the tasks completed within it of the
      time it runs, and the returned time is now minus the look-back.
      Go indexes the first match without checking there is one, so durs
      must hold a period letter. The "unable to parse duration" branch of
      the source is unreachable: the second group always holds a letter. */
  function DurationFilter(durs: string, now: Time): (r: Result<Bound, Error>)
    requires HasUnit(durs)
    ensures r.Ok? <==> CountText(durs) != [] && DigitsValue(CountText(durs)) <= MaxInt64
    ensures r.Err? ==> r.error == BadNumber(CountText(durs))
    ensures r.Ok? ==>
      var dur := WrapInt64(DigitsValue(CountText(durs)) * UnitLength(PeriodOf(durs)));
      && r.value.date == WindowStart(now, dur)
      && forall t: Task, later: Time, re: Regex ::
           Keeps(r.value.filter, t, later, re) <==> t.done && t.finished > WindowStart(later, dur)
  {
    match Atoi(CountText(durs))
    case Err(e) => Err(e)
    case Ok(n) =>
      var dur := WrapInt64(n * UnitLength(PeriodOf(durs)));
      Ok(Bound(CompletedWithin(dur), WindowStart(now, dur)))
  }

  /** The period letter of the first match of (\d*)([hdwm]) in durs. */
  function PeriodOf(durs: string): (c: char)
    requires HasUnit(durs)
    ensures IsUnit(c)
  {
    durs[FirstUnit(durs)]
  }

  /** The count of the first match of (\d*)([hdwm]) in durs: all the
      digits right before the first period letter. */
  function CountText(durs: string): (digits: string)
    requires HasUnit(durs)
    ensures AllDigits(digits)
  {
    var q := FirstUnit(durs);
    durs[DigitRunBefore(durs, q)..q]
  }

  /** A well-formed look-back "last:<n><p>" whose length fits in int64 keeps
      the tasks completed within n periods of the time the filter runs, and
      reports the time n periods before now. */
  lemma LastWordWindow(digits: string, unit: char, now: Time)
    requires AllDigits(digits) && digits != [] && IsUnit(unit)
    requires DigitsValue(digits) * UnitLength(unit) <= MaxInt64
    ensures
      var w, span := "last:" + digits + [unit], DigitsValue(digits) * UnitLength(unit);
      && HasUnit(w)
      && DurationFilter(w, now).Ok?
      && DurationFilter(w, now).value.date == now - span
      && forall t: Task, later: Time, re: Regex ::
           Keeps(DurationFilter(w, now).value.filter, t, later, re) <==> t.done && t.finished > later - span
  {
    LastWordParts(digits, unit);
    CountedWindow("last:" + digits + [unit], digits, unit, now);
  }

  /** DurationFilter on a text whose first period letter is its last
      character, preceded by a count that fits. */
  lemma CountedWindow(durs: string, digits: string, unit: char, now: Time)
    requires AllDigits(digits) && digits != [] && IsUnit(unit)
    requires DigitsValue(digits) * UnitLength(unit) <= MaxInt64
    requires HasUnit(durs) && PeriodOf(durs) == unit && CountText(durs) == digits
    ensures DurationFilter(durs, now) ==
      Ok(Bound(CompletedWithin(DigitsValue(digits) * UnitLength(unit)), now - DigitsValue(digits) * UnitLength(unit)))
  {
    WrapProduct(DigitsValue(digits), UnitLength(unit));
  }

  /** A product of a count and a period that fits in int64 does not wrap. */
  lemma WrapProduct(n: nat, len: Duration)
    requires 0 < len && n * len <= MaxInt64
    ensures WrapInt64(n * len) == n * len
  {
    assert 0 <= n * len;
  }

  /** In "last:<digits><p>", the first period letter is the last character
      and the digits before it are exactly <digits>. */
  lemma LastWordParts(digits: string, unit: char)
    requires AllDigits(digits) && IsUnit(unit)
    ensures
      var w := "last:" + digits + [unit];
      && HasUnit(w)
      && PeriodOf(w) == unit
      && CountText(w) == digits
  {
    var w := "last:" + digits + [unit];
    assert IsUnit(w[|w| - 1]);
    forall i | 0 <= i < |w| - 1
      ensures !IsUnit(w[i])
    {
      assert w[..5] == "last:";
      if i >= 5 {
        assert w[i] == digits[i - 5];
      }
    }
    var p := DigitRunBefore(w, |w| - 1);
    assert w[4] == ':' && !IsDigit(w[4]);
    assert forall k :: p <= k < |w| - 1 ==> IsDigit(w[k]) by {
      forall k | p <= k < |w| - 1
        ensures IsDigit(w[k])
      {
        assert w[k] == w[p..|w| - 1][k - p];
      }
    }
    assert forall k :: 5 <= k < |w| - 1 ==> IsDigit(w[k]) by {
      forall k | 5 <= k < |w| - 1
        ensures IsDigit(w[k])
      {
        assert w[k] == digits[k - 5];
      }
    }
    assert w[5..|w| - 1] == digits;
  }

  /** A look-back without a count, such as "last:w", is rejected. */
  lemma LastWordNeedsCount(unit: char, now: Time)
    requires IsUnit(unit)
    ensures HasUnit("last:" + [unit])
    ensures DurationFilter("last:" + [unit], now) == Err(BadNumber(""))
  {
    LastWordParts("", unit);
    assert "last:" + "" + [unit] == "last:" + [unit];
  }

  // ---------------------------------------------------------------------
  // Reading the words of a query

  /** The kinds of query word, in the order the patterns are tried. */
  datatype Word =
    | TagWord(tag: string)       // ^t(?:ag)?:(.+)$
    | FromWord(date: string)     // ^from:(\d{4}-\d{2}-\d{2})$
    | ToWord(date: string)       // ^to:(\d{4}-\d{2}-\d{2})$
    | LastWord                   // ^last:(\d*)([hdwm])$
    | PriorityWord(code: string) // pri:([LNH!])$
    | UnmatchedWord              // ^\w+:.*$
    | TitleWord                  // anything else

  predicate HasPrefix(s: string, prefix: string) {
    |prefix| <= |s| && s[..|prefix|] == prefix
  }

  /** `.+` at the end of a pattern: at least one character, none of them a
      newline, which `.` does not match. */
  predicate IsLineRest(s: string) {
    s != [] && '\n' !in s
  }

  /** The characters of \w: ASCII letters, digits and the underscore. */
  predicate IsWordChar(c: char) {
    IsDigit(c) || 'a' <= c <= 'z' || 'A' <= c <= 'Z' || c == '_'
  }

  /** The length of the longest prefix of s made of \w characters. */
  function WordCharPrefix(s: string): (n: nat)
    ensures n <= |s|
    ensures forall i :: 0 <= i < n ==> IsWordChar(s[i])
    ensures n < |s| ==> !IsWordChar(s[n])
  {
    if s == [] || !IsWordChar(s[0]) then 0 else 1 + WordCharPrefix(s[1..])
  }

  predicate IsLastWord(word: string) {
    && HasPrefix(word, "last:") && |word| >= 6
    && AllDigits(word[5..|word| - 1]) && IsUnit(word[|word| - 1])
  }

  predicate IsPriorityCode(c: char) {
    c == 'L' || c == 'N' || c == 'H' || c == '!'
  }

  /** ^\w+:.*$ : one or more \w characters, a colon, then no newline. */
  predicate IsUnmatchedTag(word: string) {
    var n := WordCharPrefix(word);
    n >= 1 && n < |word| && word[n] == ':' && '\n' !in word[n + 1..]
  }

  /** Which pattern of processQueryWord a word matches first, with the part
      of the word the pattern captures. */
  function Classify(word: string): (w: Word)
    ensures w.TagWord? ==> IsLineRest(w.tag) && (word == "t:" + w.tag || word == "tag:" + w.tag)
    ensures w.FromWord? ==> IsDateText(w.date) && word == "from:" + w.date
    ensures w.ToWord? ==> IsDateText(w.date) && word == "to:" + w.date
    ensures w.PriorityWord? ==> |w.code| == 1 && IsPriorityCode(w.code[0])
    ensures w.LastWord? ==> HasUnit(word)
  {
    if HasPrefix(word, "tag:") && IsLineRest(word[4..]) then
      PrefixThenRest(word, "tag:");
      TagWord(word[4..])
    else if HasPrefix(word, "t:") && IsLineRest(word[2..]) then
      PrefixThenRest(word, "t:");
      TagWord(word[2..])
    else if HasPrefix(word, "from:") && IsDateText(word[5..]) then
      PrefixThenRest(word, "from:");
      FromWord(word[5..])
    else if HasPrefix(word, "to:") && IsDateText(word[3..]) then
      PrefixThenRest(word, "to:");
      ToWord(word[3..])
    else if IsLastWord(word) then
      assert IsUnit(word[|word| - 1]);
      LastWord
    else if |word| >= 5 && word[|word| - 5..|word| - 1] == "pri:" && IsPriorityCode(word[|word| - 1]) then
      var code := word[|word| - 1..];
      assert code[0] == word[|word| - 1];
      PriorityWord(code)
    else if IsUnmatchedTag(word) then
      UnmatchedWord
    else
      TitleWord
  }

  /** A word that starts with prefix is prefix followed by the rest. */
  lemma PrefixThenRest(word: string, prefix: string)
    requires HasPrefix(word, prefix)
    ensures word == prefix + word[|prefix|..]
  {
    assert word == word[..|prefix|] + word[|prefix|..];
  }

  /** The shorthand "t:" is tried before the priority pattern, so
      "t:pri:H" is the tag "pri:H". */
  lemma TagBeforePriority()
    ensures Classify("t:pri:H") == TagWord("pri:H")
  {
    var w := "t:pri:H";
    assert w[..4][1] == ':';
    assert w[..2] == "t:";
    assert w[2..] == "pri:H";
  }

  /** The priority pattern is anchored only at the end: "xpri:H" asks for
      high priority. */
  lemma PriorityUnanchored()
    ensures Classify("xpri:H") == PriorityWord("H")
  {
    var w := "xpri:H";
    assert w[..2][0] == w[..3][0] == w[..4][0] == w[..5][0] == 'x';
    assert !IsLastWord(w);
    assert w[1..5] == "pri:";
    assert w[5..] == "H";
  }

  /** A word shaped like a tag that no pattern knows is an error rather
      than a title pattern. */
  lemma UnknownTagIsUnmatched()
    ensures Classify("foo:bar") == UnmatchedWord
  {
    var w := "foo:bar";
    assert !HasPrefix(w, "tag:") && !HasPrefix(w, "t:") by {
      assert w[..4][0] == w[..2][0] == 'f';
    }
    assert !HasPrefix(w, "from:") && !HasPrefix(w, "to:") && !HasPrefix(w, "last:") by {
      assert w[..5][0] == w[..3][0] == 'f' && w[..5][1] == 'o';
    }
    assert !IsLastWord(w);
    assert !IsPriorityCode(w[|w| - 1]);
    assert IsUnmatchedTag(w) by {
      assert w[3..] == ":bar" && WordCharPrefix(w[3..]) == 0;
      assert w[2..] == "o:bar" && w[1..] == "oo:bar";
      assert WordCharPrefix(w) == 3;
      assert w[4..] == "bar";
    }
  }

  // ---------------------------------------------------------------------
  // The filter chain

  /** CompletionStatus: a uint8 choosing the tasks a query starts from. */
  newtype CompletionStatus = x: int | 0 <= x < 256

  const StatusCompleted: CompletionStatus := 1
  const StatusUncompleted: CompletionStatus := 2
  const StatusAny: CompletionStatus := 3

  /** The fields of a FilterChain as a value. */
  datatype ChainState = ChainState(chain: seq<Filter>, start: Time, end: Time, status: CompletionStatus)

  /** processQueryWord, as a function of the chain it updates: the filter a
      word stands for is appended. A "from:" or "last:" word moves start to
      its date when that is on or after start's day; a "to:" word moves end
      to its date when that is on or after end's day. On an error nothing
      changes. now is the clock reading "last:" counts back from. */
  function ProcessWord(st: ChainState, word: string, now: Time, re: Regex): (r: Result<ChainState, Error>)
    ensures r.Ok? ==> |r.value.chain| == |st.chain| + 1 && r.value.chain[..|st.chain|] == st.chain
    ensures r.Ok? ==> r.value.status == st.status
    ensures r.Ok? ==> Day(r.value.start) >= Day(st.start) && Day(r.value.end) >= Day(st.end)
    ensures Classify(word).UnmatchedWord? ==> r == Err(UnmatchedTag(word))
  {
    match Classify(word)
    case TagWord(tag) => Ok(st.(chain := st.chain + [TagFilter(tag)]))
    case FromWord(date) =>
      var b := if st.status == StatusUncompleted then StartedAfter(date) else CompletedAfter(date);
      if b.Err? then Err(b.error)
      else
        var start := if After(b.value.date, st.start) then b.value.date else st.start;
        Ok(st.(chain := st.chain + [b.value.filter], start := start))
    case ToWord(date) =>
      var b := if st.status == StatusUncompleted then StartedBefore(date) else CompletedBefore(date);
      if b.Err? then Err(b.error)
      else
        var end := if Before(st.end, b.value.date) then b.value.date else st.end;
        Ok(st.(chain := st.chain + [b.value.filter], end := end))
    case LastWord =>
      var b := DurationFilter(word, now);
      if b.Err? then Err(b.error)
      else
        var start := if After(b.value.date, st.start) then b.value.date else st.start;
        Ok(st.(chain := st.chain + [b.value.filter], start := start))
    case PriorityWord(code) => Ok(st.(chain := st.chain + [PriorityFilter(PriorityFromString(code))]))
    case UnmatchedWord => Err(UnmatchedTag(word))
    case TitleWord =>
      var f := TitleFilter(word, re);
      if f.Err? then Err(f.error) else Ok(st.(chain := st.chain + [f.value]))
  }

  /** The loop of ProcessQuery: each word, trimmed, is processed in turn,
      and the first error ends the query. */
  function ProcessWords(st: ChainState, words: seq<string>, now: Time, re: Regex): (r: Result<ChainState, Error>)
    ensures r.Ok? ==> |r.value.chain| == |st.chain| + |words| && r.value.chain[..|st.chain|] == st.chain
    ensures r.Ok? ==> r.value.status == st.status
    ensures r.Ok? ==> Day(r.value.start) >= Day(st.start) && Day(r.value.end) >= Day(st.end)
    decreases |words|
  {
    if words == [] then Ok(st)
    else
      match ProcessWord(st, TrimSpace(words[0]), now, re)
      case Err(e) => Err(e)
      case Ok(next) =>
        var r := ProcessWords(next, words[1..], now, re);
        if r.Ok? then
          assert r.value.chain[..|st.chain|] == r.value.chain[..|next.chain|][..|st.chain|];
          r
        else r
  }

  /** The chain ProcessQuery starts from: only completed tasks, only
      uncompleted tasks, or all tasks. */
  function Seed(status: CompletionStatus): (st: ChainState)
    requires status == StatusCompleted || status == StatusUncompleted || status == StatusAny
    ensures st.start == ZeroTime && st.end == ZeroTime && st.status == status
    ensures |st.chain| == if status == StatusAny then 0 else 1
  {
    var chain :=
      if status == StatusCompleted then [KeepCompleted]
      else if status == StatusUncompleted then [KeepUncompleted]
      else [];
    ChainState(chain, ZeroTime, ZeroTime, status)
  }

  /** The seed keeps the done tasks for StatusCompleted, the tasks not done
      for StatusUncompleted, and every task for StatusAny. */
  lemma SeedSelectsStatus(status: CompletionStatus, t: Task, now: Time, re: Regex)
    requires status == StatusCompleted || status == StatusUncompleted || status == StatusAny
    ensures KeepsAll(Seed(status).chain, t, now, re) <==>
      (status == StatusCompleted ==> t.done) && (status == StatusUncompleted ==> !t.done)
  {
    var chain := Seed(status).chain;
    if status != StatusAny {
      assert chain[0] in chain;
    }
  }

  /** The outcome of ProcessQuery(args, status). */
  function RunQuery(args: seq<string>, status: CompletionStatus, now: Time, re: Regex): (r: Result<ChainState, Error>)
    ensures !(status == StatusCompleted || status == StatusUncompleted || status == StatusAny) ==> r == Err(InvalidStatus)
  {
    if status == StatusCompleted || status == StatusUncompleted || status == StatusAny then
      ProcessWords(Seed(status), args, now, re)
    else Err(InvalidStatus)
  }

  /** Processing words one after another: the first list, then the second
      from where the first left off. */
  lemma {:induction false} ProcessWordsAppend(st: ChainState, a: seq<string>, b: seq<string>, now: Time, re: Regex)
    ensures ProcessWords(st, a + b, now, re) ==
      match ProcessWords(st, a, now, re)
      case Err(e) => Err(e)
      case Ok(mid) => ProcessWords(mid, b, now, re)
    decreases |a|
  {
    if a == [] {
      assert a + b == b;
    } else {
      assert (a + b)[0] == a[0];
      assert (a + b)[1..] == a[1..] + b;
      match ProcessWord(st, TrimSpace(a[0]), now, re)
      case Err(e) =>
      case Ok(next) => ProcessWordsAppend(next, a[1..], b, now, re);
    }
  }

  /** A query that fails fails the same way whatever words follow. */
  lemma QueryErrorIsFinal(args: seq<string>, more: seq<string>, status: CompletionStatus, now: Time, re: Regex)
    requires RunQuery(args, status, now, re).Err?
    ensures RunQuery(args + more, status, now, re) == RunQuery(args, status, now, re)
  {
    if status == StatusCompleted || status == StatusUncompleted || status == StatusAny {
      ProcessWordsAppend(Seed(status), args, more, now, re);
    }
  }

  /** A query that succeeds holds the status filter followed by one filter
      per word. */
  lemma QueryChainShape(args: seq<string>, status: CompletionStatus, now: Time, re: Regex)
    requires RunQuery(args, status, now, re).Ok?
    ensures var st := RunQuery(args, status, now, re).value;
      && st.status == status
      && |st.chain| == |Seed(status).chain| + |args|
      && (status == StatusCompleted ==> st.chain[0] == KeepCompleted)
      && (status == StatusUncompleted ==> st.chain[0] == KeepUncompleted)
  {
    var st := RunQuery(args, status, now, re).value;
    assert st.chain[..|Seed(status).chain|] == Seed(status).chain;
    if status != StatusAny {
      assert st.chain[0] == st.chain[..1][0];
    }
  }

  /** A word with no white space at either end is left as it is. */
  lemma TrimSpaceKeeps(s: string)
    requires s != [] && !IsSpace(s[0]) && !IsSpace(s[|s| - 1])
    ensures TrimSpace(s) == s
  {
    assert LeadingSpaces(s) == 0;
    assert TrailingSpaces(s) == 0;
    assert s[0..|s|] == s;
  }

  lemma ClassifyFrom(date: string)
    requires IsDateText(date)
    ensures Classify("from:" + date) == FromWord(date)
    ensures TrimSpace("from:" + date) == "from:" + date
  {
    var w := "from:" + date;
    assert w[..2][0] == w[..4][0] == 'f';
    assert w[..5] == "from:" && w[5..] == date;
    assert w[|w| - 1] == date[9];
    TrimSpaceKeeps(w);
  }

  lemma ClassifyTo(date: string)
    requires IsDateText(date)
    ensures Classify("to:" + date) == ToWord(date)
    ensures TrimSpace("to:" + date) == "to:" + date
  {
    var w := "to:" + date;
    assert w[..2][1] == w[..4][1] == 'o';
    assert w[..5][0] == 't';
    assert w[..3] == "to:" && w[3..] == date;
    assert w[|w| - 1] == date[9];
    TrimSpaceKeeps(w);
  }

  lemma ClassifyLast(digits: string, unit: char)
    requires AllDigits(digits) && IsUnit(unit)
    ensures Classify("last:" + digits + [unit]) == LastWord
    ensures TrimSpace("last:" + digits + [unit]) == "last:" + digits + [unit]
  {
    var w := "last:" + digits + [unit];
    assert w[..2][0] == w[..3][0] == w[..4][0] == w[..5][0] == 'l';
    assert w[..5] == "last:" && w[5..|w| - 1] == digits;
    TrimSpaceKeeps(w);
  }

  /** The zero time is a midnight. */
  lemma ZeroTimeIsMidnight()
    ensures Day(ZeroTime) == ZeroTime
  {
    MidnightIsDay(-719_162);
  }

  /** Processing a list of words: the first, then the rest. */
  lemma ProcessWordsCons(st: ChainState, word: string, rest: seq<string>, now: Time, re: Regex)
    ensures var first := ProcessWord(st, TrimSpace(word), now, re);
      ProcessWords(st, [word] + rest, now, re) ==
        if first.Err? then Err(first.error) else ProcessWords(first.value, rest, now, re)
  {
    assert ([word] + rest)[1..] == rest;
  }

  /** One "from:" word with a date that parses. */
  lemma FromStep(st: ChainState, a: string, now: Time, re: Regex)
    requires ParseDate(a).Some?
    ensures var d := ParseDate(a).value;
      ProcessWord(st, "from:" + a, now, re) ==
        Ok(st.(chain := st.chain + [if st.status == StatusUncompleted then CreatedAfter(d) else FinishedFrom(d)],
               start := if After(d, st.start) then d else st.start))
  {
    ClassifyFrom(a);
  }

  /** One "to:" word with a date that parses. */
  lemma ToStep(st: ChainState, b: string, now: Time, re: Regex)
    requires ParseDate(b).Some?
    ensures var d := ParseDate(b).value;
      ProcessWord(st, "to:" + b, now, re) ==
        Ok(st.(chain := st.chain + [if st.status == StatusUncompleted then CreatedBefore(d) else FinishedBy(d)],
               end := if Before(st.end, d) then d else st.end))
  {
    ClassifyTo(b);
  }

  /** One "last:<n><p>" word: the look-back DurationFilter reads from it
      is appended, or its error ends the query. */
  lemma LastStep(st: ChainState, digits: string, unit: char, now: Time, re: Regex)
    requires AllDigits(digits) && IsUnit(unit)
    ensures var w := "last:" + digits + [unit];
      && HasUnit(w)
      && var b := DurationFilter(w, now);
      ProcessWord(st, w, now, re) ==
        if b.Err? then Err(b.error)
        else Ok(st.(chain := st.chain + [b.value.filter],
                    start := if After(b.value.date, st.start) then b.value.date else st.start))
  {
    ClassifyLast(digits, unit);
    LastWordParts(digits, unit);
  }

  /** One tag word, "tag:<tag>" or its shorthand "t:<tag>": the tag filter
      is appended. */
  lemma TagStep(st: ChainState, tag: string, now: Time, re: Regex)
    requires IsLineRest(tag)
    ensures ProcessWord(st, "tag:" + tag, now, re) == Ok(st.(chain := st.chain + [TagFilter(tag)]))
    ensures ProcessWord(st, "t:" + tag, now, re) == Ok(st.(chain := st.chain + [TagFilter(tag)]))
  {
    var long, short := "tag:" + tag, "t:" + tag;
    assert long[..4] == "tag:" && long[4..] == tag;
    assert short[..2] == "t:" && short[2..] == tag;
    assert !HasPrefix(short, "tag:") by {
      assert |short| >= 4 ==> short[..4][1] == ':';
    }
  }

  /** One word ending in "pri:<c>" for a priority code c that is not a tag
      word: the filter for that priority is appended. The text before
      "pri:" does not matter. */
  lemma PriorityStep(st: ChainState, prefix: string, c: char, now: Time, re: Regex)
    requires IsPriorityCode(c)
    requires var w := prefix + "pri:" + [c];
      !(HasPrefix(w, "tag:") && IsLineRest(w[4..])) && !(HasPrefix(w, "t:") && IsLineRest(w[2..]))
    ensures ProcessWord(st, prefix + "pri:" + [c], now, re) ==
      Ok(st.(chain := st.chain + [PriorityFilter(PriorityFromString([c]))]))
  {
    var w := prefix + "pri:" + [c];
    assert w[|w| - 1] == c && !IsDigit(c) && !IsUnit(c);
    assert !IsLastWord(w);
    assert w[|w| - 5..|w| - 1] == "pri:";
    assert w[|w| - 1..] == [c];
  }

  /** A word without a colon is a title pattern: its filter is appended
      when the pattern compiles, and otherwise the query fails with the
      pattern's error. */
  lemma TitleStep(st: ChainState, w: string, now: Time, re: Regex)
    requires ':' !in w
    ensures Classify(w) == TitleWord
    ensures ProcessWord(st, w, now, re).Ok? <==> re.compiles(w)
    ensures re.compiles(w) ==> ProcessWord(st, w, now, re) == Ok(st.(chain := st.chain + [TitleMatches(w)]))
    ensures !re.compiles(w) ==> ProcessWord(st, w, now, re) == Err(BadPattern(w))
  {
    ColonFreeIsTitle(w);
  }

  /** No pattern but the title's can match a word without a colon. */
  lemma ColonFreeIsTitle(w: string)
    requires ':' !in w
    ensures Classify(w) == TitleWord
  {
    assert |w| >= 2 ==> w[..2][1] == w[1];
    assert |w| >= 3 ==> w[..3][2] == w[2];
    assert |w| >= 4 ==> w[..4][3] == w[3];
    assert |w| >= 5 ==> w[..5][4] == w[4] && w[|w| - 5..|w| - 1][3] == w[|w| - 2];
    var n := WordCharPrefix(w);
    assert n < |w| ==> w[n] in w;
  }

  /** A "from:" or "to:" word of the right shape whose date is not on the
      calendar fails the query with the parse error. */
  lemma BadDateStep(st: ChainState, d: string, now: Time, re: Regex)
    requires IsDateText(d) && ParseDate(d).None?
    ensures ProcessWord(st, "from:" + d, now, re) == Err(BadDate(d))
    ensures ProcessWord(st, "to:" + d, now, re) == Err(BadDate(d))
  {
    ClassifyFrom(d);
    ClassifyTo(d);
  }

  /** A query of one word that needs no trimming is that word's step from
      the seed. */
  lemma SingleWordQuery(w: string, status: CompletionStatus, now: Time, re: Regex)
    requires status == StatusCompleted || status == StatusUncompleted || status == StatusAny
    requires TrimSpace(w) == w
    ensures RunQuery([w], status, now, re) == ProcessWord(Seed(status), w, now, re)
  {
    assert [w] + [] == [w];
    ProcessWordsCons(Seed(status), w, [], now, re);
  }

  /** A query of two words that need no trimming: the first word's step
      from the seed, then the second's. */
  lemma TwoWordQuery(w1: string, w2: string, status: CompletionStatus, now: Time, re: Regex)
    requires status == StatusCompleted || status == StatusUncompleted || status == StatusAny
    requires TrimSpace(w1) == w1 && TrimSpace(w2) == w2
    ensures var first := ProcessWord(Seed(status), w1, now, re);
      RunQuery([w1, w2], status, now, re) ==
        if first.Err? then Err(first.error) else ProcessWord(first.value, w2, now, re)
  {
    assert [w1, w2] == [w1] + [w2];
    assert [w2] + [] == [w2];
    ProcessWordsCons(Seed(status), w1, [w2], now, re);
    var first := ProcessWord(Seed(status), w1, now, re);
    if first.Ok? {
      ProcessWordsCons(first.value, w2, [], now, re);
    }
  }

  /** A bound at or after the zero time is on or after the zero time's day. */
  lemma AfterZeroTime(t: Time)
    requires ZeroTime <= t
    ensures After(t, ZeroTime) && Before(ZeroTime, t)
  {
    ZeroTimeIsMidnight();
    AfterMeansFromDayStart(t, ZeroTime);
    BeforeOrAfter(ZeroTime, t);
  }

  /** "from:" bounds the creation time, strictly, when the query is about
      uncompleted tasks, and the completion day otherwise. */
  lemma FromDependsOnStatus(a: string, status: CompletionStatus, now: Time, re: Regex)
    requires ParseDate(a).Some?
    requires status == StatusCompleted || status == StatusUncompleted || status == StatusAny
    ensures var d := ParseDate(a).value;
      && RunQuery(["from:" + a], status, now, re).Ok?
      && RunQuery(["from:" + a], status, now, re).value.chain ==
           if status == StatusUncompleted then [KeepUncompleted, CreatedAfter(d)]
           else if status == StatusCompleted then [KeepCompleted, FinishedFrom(d)]
           else [FinishedFrom(d)]
  {
    ClassifyFrom(a);
    SingleWordQuery("from:" + a, status, now, re);
    FromStep(Seed(status), a, now, re);
  }

  /** Of two "to:" dates the later one is kept as the end, whichever comes
      first: each word only ever moves the end later. */
  lemma ToKeepsLaterDate(a: string, b: string, now: Time, re: Regex)
    requires ParseDate(a).Some? && ParseDate(b).Some?
    requires ZeroTime <= ParseDate(b).value < ParseDate(a).value
    ensures RunQuery(["to:" + a, "to:" + b], StatusAny, now, re).Ok?
    ensures RunQuery(["to:" + a, "to:" + b], StatusAny, now, re).value.end == ParseDate(a).value
    ensures RunQuery(["to:" + b, "to:" + a], StatusAny, now, re).Ok?
    ensures RunQuery(["to:" + b, "to:" + a], StatusAny, now, re).value.end == ParseDate(a).value
  {
    var da, db := ParseDate(a).value, ParseDate(b).value;
    ClassifyTo(a);
    ClassifyTo(b);
    AfterZeroTime(da);
    AfterZeroTime(db);
    var seed := Seed(StatusAny);
    ToStep(seed, a, now, re);
    ToStep(seed, b, now, re);
    ToStep(ProcessWord(seed, "to:" + a, now, re).value, b, now, re);
    ToStep(ProcessWord(seed, "to:" + b, now, re).value, a, now, re);
    TwoWordQuery("to:" + a, "to:" + b, StatusAny, now, re);
    TwoWordQuery("to:" + b, "to:" + a, StatusAny, now, re);
  }

  /** A query from one day to another bounds the range by both days. */
  lemma QueryBetween(a: string, b: string, now: Time, re: Regex)
    requires ParseDate(a).Some? && ParseDate(b).Some?
    requires ZeroTime <= ParseDate(a).value && ZeroTime <= ParseDate(b).value
    ensures RunQuery(["from:" + a, "to:" + b], StatusAny, now, re) ==
      Ok(ChainState([FinishedFrom(ParseDate(a).value), FinishedBy(ParseDate(b).value)],
                    ParseDate(a).value, ParseDate(b).value, StatusAny))
  {
    var da, db := ParseDate(a).value, ParseDate(b).value;
    ClassifyFrom(a);
    ClassifyTo(b);
    AfterZeroTime(da);
    AfterZeroTime(db);
    var seed := Seed(StatusAny);
    assert seed == ChainState([], ZeroTime, ZeroTime, StatusAny);
    FromStep(seed, a, now, re);
    var s1 := ChainState([FinishedFrom(da)], da, ZeroTime, StatusAny);
    assert ProcessWord(seed, "from:" + a, now, re) == Ok(s1);
    ToStep(s1, b, now, re);
    assert [FinishedFrom(da)] + [FinishedBy(db)] == [FinishedFrom(da), FinishedBy(db)];
    assert ProcessWord(s1, "to:" + b, now, re) == Ok(ChainState([FinishedFrom(da), FinishedBy(db)], da, db, StatusAny));
    TwoWordQuery("from:" + a, "to:" + b, StatusAny, now, re);
  }

  /** A tag word then a priority word, such as "tag:work pri:H": the tasks
      carrying the tag, of that priority or above, with no time bounds. */
  lemma TagAndPriorityQuery(tag: string, c: char, now: Time, re: Regex)
    requires IsLineRest(tag) && !IsSpace(tag[0]) && !IsSpace(tag[|tag| - 1])
    requires IsPriorityCode(c)
    ensures RunQuery(["tag:" + tag, "pri:" + [c]], StatusAny, now, re) ==
      Ok(ChainState([WithTag(tag), AtLeastPriority(PriorityFromString([c]))], ZeroTime, ZeroTime, StatusAny))
  {
    var w1, w2 := "tag:" + tag, "pri:" + [c];
    var f1, f2 := WithTag(tag), AtLeastPriority(PriorityFromString([c]));
    var seed := ChainState([], ZeroTime, ZeroTime, StatusAny);
    var s1 := ChainState([f1], ZeroTime, ZeroTime, StatusAny);
    assert Seed(StatusAny) == seed;
    assert TrimSpace(w1) == w1 && ProcessWord(seed, w1, now, re) == Ok(s1) by {
      assert w1[|w1| - 1] == tag[|tag| - 1];
      TrimSpaceKeeps(w1);
      TrimSpaceKeeps(tag);
      TagStep(seed, tag, now, re);
      assert [] + [f1] == [f1];
    }
    assert TrimSpace(w2) == w2 && ProcessWord(s1, w2, now, re) == Ok(s1.(chain := [f1, f2])) by {
      PriorityWordAlone(s1, c, now, re);
      assert [f1] + [f2] == [f1, f2];
    }
    TwoWordQuery(w1, w2, StatusAny, now, re);
  }

  /** The query "tag:work pri:H". */
  lemma WorkAtHighPriority(args: seq<string>, now: Time, re: Regex)
    requires args == ["tag:work", "pri:H"]
    ensures RunQuery(args, StatusAny, now, re) ==
      Ok(ChainState([WithTag("work"), AtLeastPriority(High)], ZeroTime, ZeroTime, StatusAny))
  {
    var tag := "work";
    assert "tag:" + tag == "tag:work";
    assert "pri:" + ['H'] == "pri:H";
    TagAndPriorityQuery(tag, 'H', now, re);
  }

  /** A priority word with nothing before "pri:". */
  lemma PriorityWordAlone(st: ChainState, c: char, now: Time, re: Regex)
    requires IsPriorityCode(c)
    ensures TrimSpace("pri:" + [c]) == "pri:" + [c]
    ensures ProcessWord(st, "pri:" + [c], now, re) ==
      Ok(st.(chain := st.chain + [AtLeastPriority(PriorityFromString([c]))]))
  {
    var w := "pri:" + [c];
    assert w[|w| - 1] == c;
    TrimSpaceKeeps(w);
    assert w == [] + "pri:" + [c];
    assert w[..2][0] == w[..4][0] == 'p';
    PriorityStep(st, [], c, now, re);
  }

  /** A query holding a "from:" word of the right shape whose date is not
      on the calendar, such as "from:2023-02-30", fails with the parse
      error. */
  lemma BadDateQuery(d: string, status: CompletionStatus, now: Time, re: Regex)
    requires IsDateText(d) && ParseDate(d).None?
    requires status == StatusCompleted || status == StatusUncompleted || status == StatusAny
    ensures RunQuery(["from:" + d], status, now, re) == Err(BadDate(d))
  {
    ClassifyFrom(d);
    SingleWordQuery("from:" + d, status, now, re);
    BadDateStep(Seed(status), d, now, re);
  }

  /** The query "from:2023-02-30". */
  lemma FebruaryThirtiethQuery(args: seq<string>, now: Time, re: Regex)
    requires args == ["from:2023-02-30"]
    ensures RunQuery(args, StatusAny, now, re) == Err(BadDate("2023-02-30"))
  {
    var d := "2023-02-30";
    assert "from:" + d == "from:2023-02-30";
    FebruaryThirtieth();
    BadDateQuery(d, StatusAny, now, re);
  }

  /** "to:" under any status but uncompleted also keeps tasks that were
      never finished, since their finish time is the zero time. */
  lemma CompletedBeforeKeepsUnfinished(date: string, t: Task, now: Time, re: Regex)
    requires ParseDate(date).Some? && ZeroTime <= ParseDate(date).value
    requires !t.done && t.finished == ZeroTime
    ensures Keeps(CompletedBefore(date).value.filter, t, now, re)
  {
  }

  // ---------------------------------------------------------------------
  // Running a chain

  /** Every filter of chain keeps the task. */
  predicate KeepsAll(chain: seq<Filter>, t: Task, now: Time, re: Regex) {
    forall f :: f in chain ==> Keeps(f, t, now, re)
  }

  /** The filters of chain applied in order. */
  function ApplyChain(chain: seq<Filter>, ts: TaskSet, now: Time, re: Regex): (r: TaskSet)
    ensures SubsetOf(r, ts)
    ensures forall id :: id in ts ==> (id in r <==> KeepsAll(chain, ts[id], now, re))
  {
    if chain == [] then ts
    else
      var init, last := chain[..|chain| - 1], chain[|chain| - 1];
      assert chain == init + [last];
      Apply(last, ApplyChain(init, ts, now, re), now, re)
  }

  /** The order of the filters does not matter, nor does repeating one:
      only which filters the chain holds. */
  lemma ChainOrderIrrelevant(c1: seq<Filter>, c2: seq<Filter>, ts: TaskSet, now: Time, re: Regex)
    requires forall f :: f in c1 <==> f in c2
    ensures ApplyChain(c1, ts, now, re) == ApplyChain(c2, ts, now, re)
  {
    var r1, r2 := ApplyChain(c1, ts, now, re), ApplyChain(c2, ts, now, re);
    assert forall id :: id in ts ==> (KeepsAll(c1, ts[id], now, re) <==> KeepsAll(c2, ts[id], now, re));
    assert r1.Keys == r2.Keys;
  }

  /** Filtering a second time with the same chain changes nothing. */
  lemma ChainIdempotent(chain: seq<Filter>, ts: TaskSet, now: Time, re: Regex)
    ensures ApplyChain(chain, ApplyChain(chain, ts, now, re), now, re) == ApplyChain(chain, ts, now, re)
  {
    var once := ApplyChain(chain, ts, now, re);
    var twice := ApplyChain(chain, once, now, re);
    assert twice.Keys == once.Keys;
  }

  /** A query for completed tasks yields only done tasks, and one for
      uncompleted tasks only tasks not done. */
  lemma QueryStatusRespected(args: seq<string>, status: CompletionStatus, ts: TaskSet, now: Time, later: Time, re: Regex)
    requires RunQuery(args, status, now, re).Ok?
    ensures var r := ApplyChain(RunQuery(args, status, now, re).value.chain, ts, later, re);
      && (status == StatusCompleted ==> forall id :: id in r ==> r[id].done)
      && (status == StatusUncompleted ==> forall id :: id in r ==> !r[id].done)
  {
    QueryChainShape(args, status, now, re);
    var chain := RunQuery(args, status, now, re).value.chain;
    var r := ApplyChain(chain, ts, later, re);
    if status == StatusCompleted || status == StatusUncompleted {
      assert chain[0] in chain;
      forall id | id in r
        ensures Keeps(chain[0], r[id], later, re)
      {
        assert KeepsAll(chain, ts[id], later, re);
      }
    }
  }

  /** A query chain: the filters in order, the bounds of any date words,
      and the status the query started from. */
  class FilterChain {
    var chain: seq<Filter>
    var start: Time
    var end: Time
    var status: CompletionStatus

    function State(): ChainState
      reads this
    {
      ChainState(chain, start, end, status)
    }

    /** &FilterChain{status: status}: no filters, both bounds the zero time. */
    constructor (status: CompletionStatus)
      ensures State() == ChainState([], ZeroTime, ZeroTime, status)
    {
      chain := [];
      start := ZeroTime;
      end := ZeroTime;
      this.status := status;
    }

    /** FilterChain.Filter: the chain's filters run in order over a copy of ts. */
    method Filter(ts: TaskSet, now: Time, re: Regex) returns (tasks: TaskSet)
      ensures SubsetOf(tasks, ts)
      ensures forall id :: id in ts ==> (id in tasks <==> KeepsAll(chain, ts[id], now, re))
    {
      tasks := Dup(ts);
      for i := 0 to |chain|
        invariant tasks == ApplyChain(chain[..i], ts, now, re)
      {
        assert chain[..i + 1] == chain[..i] + [chain[i]];
        tasks := Apply(chain[i], tasks, now, re);
      }
      assert chain[..|chain|] == chain;
    }

    /** processQueryWord: appends the word's filter and moves the bounds,
        or reports the error and changes nothing. */
    method ProcessQueryWord(word: string, now: Time, re: Regex) returns (err: Option<Error>)
      modifies this
      ensures ProcessWord(old(State()), word, now, re) == if err.Some? then Err(err.value) else Ok(State())
      ensures err.Some? ==> State() == old(State())
    {
      var f: Filter;
      match Classify(word) {
      case TagWord(tag) =>
        f := TagFilter(tag);
      case FromWord(date) =>
        var b := if status == StatusUncompleted then StartedAfter(date) else CompletedAfter(date);
        if b.Err? {
          return Some(b.error);
        }
        f := b.value.filter;
        if After(b.value.date, start) {
          start := b.value.date;
        }
      case ToWord(date) =>
        var b := if status == StatusUncompleted then StartedBefore(date) else CompletedBefore(date);
        if b.Err? {
          return Some(b.error);
        }
        f := b.value.filter;
        if Before(end, b.value.date) {
          end := b.value.date;
        }
      case LastWord =>
        var b := DurationFilter(word, now);
        if b.Err? {
          return Some(b.error);
        }
        f := b.value.filter;
        if After(b.value.date, start) {
          start := b.value.date;
        }
      case PriorityWord(code) =>
        f := PriorityFilter(PriorityFromString(code));
      case UnmatchedWord =>
        return Some(UnmatchedTag(word));
      case TitleWord =>
        var t := TitleFilter(word, re);
        if t.Err? {
          return Some(t.error);
        }
        f := t.value;
      }
      chain := chain + [f];
      return None;
    }

    /** TimeRange: the bounds set by date words, each written as YYYY-MM-DD;
        a bound still at the zero time counts as unset. A bound parsed from
        a date is written back exactly as it was typed. */
    function TimeRange(): (s: string)
      reads this
      ensures s == [] <==> start == ZeroTime && end == ZeroTime
      ensures forall a :: start != ZeroTime && end == ZeroTime && ParseDate(a) == Some(start) ==>
        s == "starting " + a
      ensures forall b :: start == ZeroTime && end != ZeroTime && ParseDate(b) == Some(end) ==>
        s == "up to " + b
      ensures forall a, b :: start != ZeroTime && end != ZeroTime && ParseDate(a) == Some(start) && ParseDate(b) == Some(end) ==>
        s == "between " + a + " and " + b
      ensures start == ZeroTime && end != ZeroTime ==> s == "up to " + FormatDate(end)
      ensures start != ZeroTime && end == ZeroTime ==> s == "starting " + FormatDate(start)
      ensures start != ZeroTime && end != ZeroTime ==> s == "between " + FormatDate(start) + " and " + FormatDate(end)
    {
      ParsedDatesFormatBack();
      if start == ZeroTime && end == ZeroTime then ""
      else if start == ZeroTime && end != ZeroTime then "up to " + FormatDate(end)
      else if start != ZeroTime && end == ZeroTime then "starting " + FormatDate(start)
      else "between " + FormatDate(start) + " and " + FormatDate(end)
    }

    /** FilterChain.Len: the number of filters. */
    function Len(): int
      reads this
    {
      |chain|
    }
  }

  /** Each date TimeRange writes for a bound in the years 0000 to 9999 reads
      back as the midnight of the bound's day. */
  lemma TimeRangeReadsBack(c: FilterChain)
    ensures var s := c.TimeRange();
      && (c.start != ZeroTime && c.end == ZeroTime && FourDigitYear(c.start) ==>
            ParseDate(s[9..]) == Some(Day(c.start)))
      && (c.start == ZeroTime && c.end != ZeroTime && FourDigitYear(c.end) ==>
            ParseDate(s[6..]) == Some(Day(c.end)))
      && (c.start != ZeroTime && c.end != ZeroTime && FourDigitYear(c.start) && FourDigitYear(c.end) ==>
            ParseDate(s[8..18]) == Some(Day(c.start)) && ParseDate(s[23..]) == Some(Day(c.end)))
  {
    var s := c.TimeRange();
    if c.start != ZeroTime && FourDigitYear(c.start) {
      FormatThenParse(c.start);
      var a := FormatDate(c.start);
      if c.end == ZeroTime {
        assert s[9..] == a;
      } else if FourDigitYear(c.end) {
        FormatThenParse(c.end);
        assert s[8..18] == a && s[23..] == FormatDate(c.end);
      }
    }
    if c.start == ZeroTime && c.end != ZeroTime && FourDigitYear(c.end) {
      FormatThenParse(c.end);
      assert s[6..] == FormatDate(c.end);
    }
  }

  /** Every date that parses is formatted back to its own text. */
  lemma ParsedDatesFormatBack()
    ensures forall s :: ParseDate(s).Some? ==> FormatDate(ParseDate(s).value) == s
  {
    forall s | ParseDate(s).Some? {
      FormatParsedDate(s);
    }
  }

  /** ProcessQuery: a new chain seeded by status, with each word of args
      processed in turn; an unknown status or a bad word yields no chain
      and the error. */
  method ProcessQuery(args: seq<string>, status: CompletionStatus, now: Time, re: Regex) returns (c: FilterChain?, err: Option<Error>)
    ensures RunQuery(args, status, now, re).Ok? ==>
      c != null && fresh(c) && err == None && c.State() == RunQuery(args, status, now, re).value
    ensures RunQuery(args, status, now, re).Err? ==>
      c == null && err == Some(RunQuery(args, status, now, re).error)
  {
    c := new FilterChain(status);
    if status == StatusCompleted {
      c.chain := c.chain + [KeepCompleted];
    } else if status == StatusUncompleted {
      c.chain := c.chain + [KeepUncompleted];
    } else if status != StatusAny {
      return null, Some(InvalidStatus);
    }
    assert c.State() == Seed(status);
    assert args[0..] == args;
    for i := 0 to |args|
      invariant fresh(c)
      invariant RunQuery(args, status, now, re) == ProcessWords(c.State(), args[i..], now, re)
    {
      assert args[i..][0] == args[i] && args[i..][1..] == args[i + 1..];
      var word := TrimSpace(args[i]);
      var e := c.ProcessQueryWord(word, now, re);
      if e.Some? {
        return null, e;
      }
    }
    return c, None;
  }
}
