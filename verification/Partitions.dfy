/**
  Monthly partitions of the audit table.

  A month is counted from January of year 0: year * 12 + month - 1.  Adding months
  to a date clamps the day but lands in the month that many later, so
  date_trunc('month', CURRENT_DATE + i months) is the start of month current + i.
 */
module Partitions {
  import opened Common
  import opened Strings

  const RETENTION_MONTHS: nat := 6
  const INITIAL_MONTHS_AHEAD: nat := 3

  /** The first month whose year takes more than four digits. */
  const YEAR_10000: nat := 120_000

  // ------------------------------------------------------------ partition names

  predicate IsDigit(c: char) {
    '0' <= c <= '9'
  }

  function DigitValue(c: char): nat {
    if IsDigit(c) then (c as int) - ('0' as int) else 0
  }

  lemma DigitRoundTrip(d: nat)
    requires d < 10
    ensures DigitValue(Digit(d)) == d
  {
  }

  /** 'inference_logs_' || to_char(month_start, 'YYYY_MM') */
  function Name(m: nat): string {
    "inference_logs_" + Padded(m / 12, 4) + "_" + Padded(m % 12 + 1, 2)
  }

  /** to_date(right(relname, 7), 'YYYY_MM'), as a month. */
  function ParsedMonth(relname: string): int
    requires |relname| >= 7
  {
    var r := relname[|relname| - 7..];
    var year := 1000 * DigitValue(r[0]) + 100 * DigitValue(r[1]) + 10 * DigitValue(r[2]) + DigitValue(r[3]);
    var month := 10 * DigitValue(r[5]) + DigitValue(r[6]);
    year * 12 + month - 1
  }

  /** The last four digits written for a year of any length. */
  lemma PaddedTail4(n: nat)
    ensures Padded(n, 4) == Padded(n / 10 / 10 / 10 / 10, 0)
      + [Digit(n / 10 / 10 / 10 % 10), Digit(n / 10 / 10 % 10), Digit(n / 10 % 10), Digit(n % 10)]
  {
    hide Padded;
    var a := n / 10;
    var b := a / 10;
    var c := b / 10;
    Padded1(n, 4);
    Padded1(a, 3);
    Padded1(b, 2);
    Padded1(c, 1);
  }

  lemma Padded1(n: nat, width: nat)
    requires width > 0
    ensures Padded(n, width) == Padded(n / 10, width - 1) + [Digit(n % 10)]
  {
  }

  lemma PaddedTwo(n: nat)
    requires n < 100
    ensures Padded(n, 2) == [Digit(n / 10), Digit(n % 10)]
  {
    Padded1(n, 2);
    Padded1(n / 10, 1);
    assert Padded(n / 10 / 10, 0) == "";
  }

  lemma Remainder(n: nat, d: nat, low: nat)
    requires n == 10_000 * d + low && low < 10_000
    ensures n % 10_000 == low
  {
  }

  /** Four quotients by ten leave four digits. */
  lemma DigitSum(n: nat, a: nat, b: nat, c: nat, d: nat, low: nat)
    requires a == n / 10 && b == a / 10 && c == b / 10 && d == c / 10
    requires low == 1000 * (c % 10) + 100 * (b % 10) + 10 * (a % 10) + n % 10
    ensures n == 10_000 * d + low && low < 10_000
  {
    assert n == 10 * a + n % 10;
    assert a == 10 * b + a % 10;
    assert b == 10 * c + b % 10;
    assert c == 10 * d + c % 10;
  }

  lemma DecimalDigits(n: nat)
    ensures 1000 * (n / 10 / 10 / 10 % 10) + 100 * (n / 10 / 10 % 10) + 10 * (n / 10 % 10) + n % 10 == n % 10_000
  {
    var a := n / 10;
    var b := a / 10;
    var c := b / 10;
    var low := 1000 * (c % 10) + 100 * (b % 10) + 10 * (a % 10) + n % 10;
    DigitSum(n, a, b, c, c / 10, low);
    Remainder(n, c / 10, low);
  }

  lemma MonthDigits(m: nat)
    ensures (m / 12 % 10_000) * 12 + m % 12 == m % YEAR_10000
  {
  }

  /** Where the seven characters of right(relname, 7) come from. */
  lemma NameTail(m: nat)
    ensures |Name(m)| >= 7
    ensures var y := m / 12;
      var k := m % 12 + 1;
      Name(m)[|Name(m)| - 7..] == [Digit(y / 10 / 10 / 10 % 10), Digit(y / 10 / 10 % 10), Digit(y / 10 % 10),
                                   Digit(y % 10), '_', Digit(k / 10), Digit(k % 10)]
  {
    PaddedTail4(m / 12);
    PaddedTwo(m % 12 + 1);
  }

  /** Reading a name back gives the month, up to multiples of ten thousand years. */
  lemma ParsedName(m: nat)
    ensures |Name(m)| >= 7 && ParsedMonth(Name(m)) == m % YEAR_10000
  {
    NameTail(m);
    var y := m / 12;
    var k := m % 12 + 1;
    DigitRoundTrip(y / 10 / 10 / 10 % 10);
    DigitRoundTrip(y / 10 / 10 % 10);
    DigitRoundTrip(y / 10 % 10);
    DigitRoundTrip(y % 10);
    DigitRoundTrip(k / 10);
    DigitRoundTrip(k % 10);
    DecimalDigits(y);
    MonthDigits(m);
  }

  /** The name reads back as the month it was made for exactly up to December 9999. */
  lemma NameRoundTrip(m: nat)
    ensures |Name(m)| >= 7
    ensures ParsedMonth(Name(m)) == m <==> m < YEAR_10000
  {
    hide Name, ParsedMonth;
    ParsedName(m);
  }

  /** Different months have different names, in any year. */
  lemma NameInjective(m: nat, n: nat)
    requires Name(m) == Name(n)
    ensures m == n
  {
    NameParts(m);
    NameParts(n);
    PaddedInjective(m / 12, n / 12, 4);
    PaddedInjective(m % 12 + 1, n % 12 + 1, 2);
    assert m == m / 12 * 12 + m % 12 && n == n / 12 * 12 + n % 12;
  }

  /** The year and the month as they stand in a name. */
  lemma NameParts(m: nat)
    ensures var name := Name(m);
      && |name| > 18
      && Padded(m / 12, 4) == name[15..|name| - 3] && Padded(m % 12 + 1, 2) == name[|name| - 2..]
  {
    PaddedTail4(m / 12);
    PaddedTwo(m % 12 + 1);
    var prefix, year, month := "inference_logs_", Padded(m / 12, 4), Padded(m % 12 + 1, 2);
    assert |prefix| == 15 && |month| == 2;
    assert Name(m) == prefix + year + "_" + month;
  }

  lemma OnlyMonth(months: set<nat>, m: nat)
    ensures forall k: nat | k in months && Name(k) == Name(m) :: k == m
  {
    forall k: nat | k in months && Name(k) == Name(m) ensures k == m {
      NameInjective(k, m);
    }
  }

  // ------------------------------------------------------------- the catalogue

  /** FOR VALUES FROM (from) TO (to), in months. */
  datatype Bounds = Bounds(from: int, to: int)

  /** The named partitions are exactly the one-month partitions of `months`. */
  ghost predicate Represents(partitions: map<string, Bounds>, months: set<nat>) {
    && (forall m: nat | m in months :: Name(m) in partitions && partitions[Name(m)] == Bounds(m, m + 1))
    && (forall name | name in partitions :: exists m: nat :: m in months && Name(m) == name)
  }

  /** The partitions other than DEFAULT that accept a row stamped in month `m`. */
  ghost function Homes(partitions: map<string, Bounds>, m: int): set<string> {
    set name | name in partitions && partitions[name].from <= m < partitions[name].to
  }

  /** A row goes to its month's partition if there is one, and otherwise to DEFAULT. */
  lemma RowsRoute(partitions: map<string, Bounds>, months: set<nat>, m: nat)
    requires Represents(partitions, months)
    ensures Homes(partitions, m) == if m in months then {Name(m)} else {}
  {
    hide Name, ParsedMonth;
    forall name | name in Homes(partitions, m) ensures m in months && name == Name(m) {
      var k: nat :| k in months && Name(k) == name;
    }
  }

  /** No two partitions overlap. */
  lemma PartitionsDisjoint(partitions: map<string, Bounds>, months: set<nat>, a: string, b: string)
    requires Represents(partitions, months) && a in partitions && b in partitions && a != b
    ensures partitions[a].to <= partitions[b].from || partitions[b].to <= partitions[a].from
  {
    hide Name, ParsedMonth;
    var j: nat :| j in months && Name(j) == a;
    var k: nat :| k in months && Name(k) == b;
  }

  lemma AddMonth(partitions: map<string, Bounds>, months: set<nat>, m: nat)
    requires Represents(partitions, months)
    ensures Name(m) in partitions <==> m in months
    ensures Represents(partitions[Name(m) := Bounds(m, m + 1)], months + {m})
  {
    hide Name, ParsedMonth;
    if Name(m) in partitions {
      var k: nat :| k in months && Name(k) == Name(m);
      NameInjective(k, m);
    }
    var grown := partitions[Name(m) := Bounds(m, m + 1)];
    forall k: nat | k in months + {m} ensures Name(k) in grown && grown[Name(k)] == Bounds(k, k + 1) {
      if Name(k) == Name(m) {
        NameInjective(k, m);
      }
    }
    forall name | name in grown ensures exists k: nat :: k in months + {m} && Name(k) == name {
      if name != Name(m) {
        var k: nat :| k in months && Name(k) == name;
        assert k in months + {m};
      } else {
        assert m in months + {m};
      }
    }
  }

  lemma RemoveMonth(partitions: map<string, Bounds>, months: set<nat>, m: nat)
    requires Represents(partitions, months) && m in months
    ensures Represents(partitions - {Name(m)}, months - {m})
  {
    hide Name, ParsedMonth;
    var less := partitions - {Name(m)};
    forall k: nat | k in months - {m} ensures Name(k) in less && less[Name(k)] == Bounds(k, k + 1) {
      if Name(k) == Name(m) {
        NameInjective(k, m);
      }
    }
    forall name | name in less ensures exists k: nat :: k in months - {m} && Name(k) == name {
      var k: nat :| k in months && Name(k) == name;
      assert k in months - {m};
    }
  }

  /** The months first <= m < end. */
  function Span(first: int, end: int): (s: set<nat>)
    ensures forall m: nat :: m in s <==> first <= m < end
    decreases end - first
  {
    if end <= first || end <= 0 then {} else Span(first, end - 1) + {end - 1}
  }

  /** The months whose names do not parse as one before the cutoff. */
  function Kept(months: set<nat>, cutoff: int): (s: set<nat>)
    ensures forall m: nat :: m in s <==> m in months && m % YEAR_10000 >= cutoff
  {
    set m | m in months && m % YEAR_10000 >= cutoff
  }

  /** A month is dropped exactly when it is before the cutoff, except late ones whose name parses as an early one. */
  lemma RetentionExactly(m: nat, cutoff: int)
    ensures (m % YEAR_10000 < cutoff <==> m < cutoff) <==> m < YEAR_10000 || m < cutoff || cutoff <= m % YEAR_10000
  {
  }

  class Catalogue {
    var partitions: map<string, Bounds>
    ghost var months: set<nat>

    ghost predicate Valid()
      reads this
    {
      Represents(partitions, months)
    }

    /** The loop of the migration: months around the day it is deployed. */
    constructor (current: nat)
      requires RETENTION_MONTHS <= current
      ensures Valid() && months == Span(current - RETENTION_MONTHS, current + INITIAL_MONTHS_AHEAD + 1)
    {
      partitions, months := map[], {};
      new;
      var created := CreateRange(current - RETENTION_MONTHS, current + INITIAL_MONTHS_AHEAD + 1);
    }

    /** FOR i ... LOOP: create the partition of each month that has none. */
    method CreateRange(from: nat, to: nat) returns (created: seq<string>)
      requires Valid()
      modifies this
      ensures Valid() && months == old(months) + Span(from, to)
      ensures forall name :: name in created <==> name in partitions && name !in old(partitions)
    {
      hide Name, ParsedMonth, Represents;
      created := [];
      var m := from;
      while m < to
        invariant from <= m <= Max(from, to)
        invariant Valid() && months == old(months) + Span(from, m)
        invariant old(partitions).Keys <= partitions.Keys
        invariant forall name :: name in created <==> name in partitions && name !in old(partitions)
      {
        var name := Name(m);
        AddMonth(partitions, months, m);
        if name !in partitions {
          partitions := partitions[name := Bounds(m, m + 1)];
          created := created + [name];
        } else {
          assert months + {m} == months;
        }
        months := months + {m};
        m := m + 1;
      }
      assert Span(from, m) == Span(from, to) by {
        assert m == Max(from, to);
      }
    }

    /** create_inference_log_partitions(months_ahead) */
    method CreatePartitions(current: nat, monthsAhead: int) returns (created: seq<string>)
      requires Valid()
      modifies this
      ensures Valid() && months == old(months) + Span(current, current + monthsAhead + 1)
      ensures forall name :: name in created <==> name in partitions && name !in old(partitions)
    {
      created := CreateRange(current, Max(current, current + monthsAhead + 1));
    }

    /** drop_expired_inference_logs(retain_months) */
    method DropExpired(current: nat, retainMonths: int) returns (dropped: seq<string>)
      requires Valid()
      modifies this
      ensures Valid() && months == Kept(old(months), current - retainMonths)
      ensures forall name :: name in dropped <==> name in old(partitions) && name !in partitions
    {
      hide Name, ParsedMonth;
      var cutoff := current - retainMonths;
      var rows := partitions.Keys;
      dropped := [];
      while rows != {}
        invariant Valid() && rows <= partitions.Keys <= old(partitions).Keys
        invariant months <= old(months)
        invariant forall m: nat | m in old(months) :: m in months <==> m % YEAR_10000 >= cutoff || Name(m) in rows
        invariant forall name :: name in dropped <==> name in old(partitions) && name !in partitions
        decreases rows
      {
        var name :| name in rows;
        ghost var m: nat :| m in months && Name(m) == name;
        ParsedName(m);
        if ParsedMonth(name) < cutoff {
          RemoveMonth(partitions, months, m);
          partitions := partitions - {name};
          months := months - {m};
          dropped := dropped + [name];
        }
        OnlyMonth(old(months), m);
        rows := rows - {name};
      }
    }

    /** One run of scripts/maintain_partitions.py. */
    method Maintain(job: Job) returns (created: seq<string>, dropped: seq<string>)
      requires Valid()
      modifies this
      ensures Valid() && months == AfterJob(old(months), job)
    {
      created := CreatePartitions(job.current, job.monthsAhead);
      dropped := DropExpired(job.current, job.retainMonths);
    }
  }

  // -------------------------------------------------------------- runs of jobs

  datatype Job = Job(current: nat, monthsAhead: int, retainMonths: int)

  function AfterJob(months: set<nat>, job: Job): set<nat> {
    Kept(months + Span(job.current, job.current + job.monthsAhead + 1), job.current - job.retainMonths)
  }

  /** The months that have a partition after deploying in `deploy` and then running `jobs`. */
  function MonthsAfter(deploy: nat, jobs: seq<Job>): set<nat> {
    if jobs == [] then Span(deploy - RETENTION_MONTHS, deploy + INITIAL_MONTHS_AHEAD + 1)
    else AfterJob(MonthsAfter(deploy, Front(jobs)), Last(jobs))
  }

  /** The last month the latest job, or the migration, made sure of. */
  function Horizon(deploy: nat, jobs: seq<Job>): int {
    if jobs == [] then deploy + INITIAL_MONTHS_AHEAD else Last(jobs).current + Last(jobs).monthsAhead
  }

  function LatestRun(deploy: nat, jobs: seq<Job>): nat {
    if jobs == [] then deploy else Last(jobs).current
  }

  /** Each job runs before the horizon of the one before it has passed. */
  predicate Timely(deploy: nat, jobs: seq<Job>) {
    jobs == [] ||
    (&& Timely(deploy, Front(jobs))
     && LatestRun(deploy, Front(jobs)) <= Last(jobs).current <= Horizon(deploy, Front(jobs))
     && Last(jobs).monthsAhead >= 0 && Last(jobs).retainMonths >= 0)
  }

  /** First month kept: the latest retention cutoff so far. */
  function Earliest(deploy: nat, jobs: seq<Job>): int {
    if jobs == [] then deploy - RETENTION_MONTHS
    else Max(Earliest(deploy, Front(jobs)), Last(jobs).current - Last(jobs).retainMonths)
  }

  /** One past the last month ever created. */
  function Latest(deploy: nat, jobs: seq<Job>): int {
    if jobs == [] then deploy + INITIAL_MONTHS_AHEAD + 1
    else Max(Latest(deploy, Front(jobs)), Last(jobs).current + Last(jobs).monthsAhead + 1)
  }

  lemma EarlyModulo(m: nat)
    requires m < YEAR_10000
    ensures m % YEAR_10000 == m
  {
  }

  /** What a job makes of months that all lie before year 10000. */
  lemma AfterJobMembers(months: set<nat>, job: Job, m: nat)
    requires forall k | k in months :: k < YEAR_10000
    requires job.current + job.monthsAhead + 1 <= YEAR_10000
    ensures m in AfterJob(months, job) <==>
      && (m in months || job.current <= m <= job.current + job.monthsAhead)
      && m >= job.current - job.retainMonths
  {
    if m < YEAR_10000 {
      EarlyModulo(m);
    }
  }

  /** A job that is not too late extends a contiguous range. */
  lemma AfterJobSpan(first: int, end: int, job: Job)
    requires end <= YEAR_10000 && job.current + job.monthsAhead + 1 <= YEAR_10000
    requires first <= job.current <= end && job.monthsAhead >= 0 && job.retainMonths >= 0
    ensures AfterJob(Span(first, end), job)
         == Span(Max(first, job.current - job.retainMonths), Max(end, job.current + job.monthsAhead + 1))
  {
    hide AfterJob, Span;
    forall m: nat
      ensures m in AfterJob(Span(first, end), job)
        <==> m in Span(Max(first, job.current - job.retainMonths), Max(end, job.current + job.monthsAhead + 1))
    {
      AfterJobMembers(Span(first, end), job, m);
    }
  }

  lemma {:induction false} JobsKeepSpan(deploy: nat, jobs: seq<Job>)
    requires Timely(deploy, jobs) && Latest(deploy, jobs) <= YEAR_10000
    ensures MonthsAfter(deploy, jobs) == Span(Earliest(deploy, jobs), Latest(deploy, jobs))
    ensures Earliest(deploy, jobs) <= LatestRun(deploy, jobs) <= Horizon(deploy, jobs) < Latest(deploy, jobs)
  {
    hide AfterJob, Span;
    if jobs != [] {
      JobsKeepSpan(deploy, Front(jobs));
      AfterJobSpan(Earliest(deploy, Front(jobs)), Latest(deploy, Front(jobs)), Last(jobs));
    }
  }

  /**
    While jobs run in time, the partitions cover one contiguous range of months, and
    every month from the latest run to its horizon has a partition: a row stamped
    now goes to its month's partition and never to DEFAULT.
   */
  lemma RowsStampedNowHaveAHome(deploy: nat, jobs: seq<Job>, partitions: map<string, Bounds>, now: nat)
    requires Timely(deploy, jobs) && Latest(deploy, jobs) <= YEAR_10000
    requires Represents(partitions, MonthsAfter(deploy, jobs))
    requires LatestRun(deploy, jobs) <= now <= Horizon(deploy, jobs)
    ensures Homes(partitions, now) == {Name(now)}
  {
    hide MonthsAfter, Represents, Homes, Name, Timely, Earliest, Latest, Horizon, LatestRun, Span;
    JobsKeepSpan(deploy, jobs);
    RowsRoute(partitions, MonthsAfter(deploy, jobs), now);
  }

  ghost predicate Contiguous(months: set<nat>) {
    forall a: nat, b: nat, c: nat | a in months && c in months && a <= b <= c :: b in months
  }

  /**
    A job that comes after everything created has run out leaves a hole in the
    range, unless it drops all the older months; any earlier job leaves none.
   */
  lemma ContiguousExactlyIfInTime(deploy: nat, jobs: seq<Job>, next: Job)
    requires Timely(deploy, jobs) && Latest(deploy, jobs + [next]) <= YEAR_10000
    requires next.monthsAhead >= 0 && next.retainMonths >= 0
    requires next.current >= LatestRun(deploy, jobs)
    requires deploy >= RETENTION_MONTHS && forall job | job in jobs :: job.current >= job.retainMonths
    ensures Contiguous(MonthsAfter(deploy, jobs + [next]))
       <==> next.current <= Latest(deploy, jobs) || next.current - next.retainMonths >= Latest(deploy, jobs)
  {
    assert Front(jobs + [next]) == jobs;
    JobsKeepSpan(deploy, jobs);
    EarliestIsMonth(deploy, jobs);
    hide AfterJob, Span;
    var end := Latest(deploy, jobs);
    var months := MonthsAfter(deploy, jobs + [next]);
    forall m: nat
      ensures m in months <==>
        && (Earliest(deploy, jobs) <= m < end || next.current <= m <= next.current + next.monthsAhead)
        && m >= next.current - next.retainMonths
    {
      AfterJobMembers(MonthsAfter(deploy, jobs), next, m);
    }
    if next.current > end && next.current - next.retainMonths < end {
      assert end - 1 in months && end !in months && next.current in months;
    }
  }

  lemma {:induction false} EarliestIsMonth(deploy: nat, jobs: seq<Job>)
    requires deploy >= RETENTION_MONTHS && forall job | job in jobs :: job.current >= job.retainMonths
    ensures Earliest(deploy, jobs) >= 0
  {
    if jobs != [] {
      EarliestIsMonth(deploy, Front(jobs));
    }
  }
}
