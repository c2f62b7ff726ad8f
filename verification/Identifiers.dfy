/**
 The names that tie host resources to their owner (native/src/supervisor.rs,
 native/src/linux/cgroup.rs, native/src/linux/mount.rs): job identifiers carry the
 supervisor's process number and start time, staging directories carry the job
 identifier, and `/proc/<pid>/stat` gives the start time back.
 */
module Identifiers {
  import opened Wrappers
  import opened UInt64
  import opened Text

  const U32_MAX: int := 0xffff_ffff
  const MAX_JOB_ID: nat := 64
  const DASH: char := '-'

  // ---------------------------------------------------------------- numbers

  predicate IsDigit(c: char) {
    '0' <= c <= '9'
  }

  function Digit(d: nat): char
    requires d < 10
  {
    '0' + d as char
  }

  function DigitValue(c: char): nat
    requires IsDigit(c)
  {
    (c - '0') as nat
  }

  function Format(n: nat): string {
    if n < 10 then [Digit(n)] else Format(n / 10) + [Digit(n % 10)]
  }

  predicate AllDigits(s: string) {
    forall i :: 0 <= i < |s| ==> IsDigit(s[i])
  }

  function Value(s: string): nat
    requires AllDigits(s)
  {
    if s == "" then 0 else Value(s[..|s| - 1]) * 10 + DigitValue(s[|s| - 1])
  }

  /** Rust's `parse` for an unsigned integer type: an optional plus sign, then digits, within the type's range. */
  function Parse(s: string, max: int): Option<nat> {
    var digits := if |s| > 1 && s[0] == '+' then s[1..] else s;
    if digits == "" || !AllDigits(digits) then None
    else if Value(digits) > max then None
    else Some(Value(digits))
  }

  predicate IsNumeral(s: string, n: nat) {
    s != "" && AllDigits(s) && Value(s) == n
  }

  /** Exactly digits parse, with at most one plus sign in front, and only up to the bound. */
  lemma ParsesIff(s: string, max: int, n: nat)
    ensures Parse(s, max) == Some(n)
       <==> n <= max && (IsNumeral(s, n) || exists t :: s == "+" + t && IsNumeral(t, n))
  {
    forall t
      ensures s == "+" + t && t != "" ==> |s| > 1 && s[0] == '+' && s[1..] == t && !AllDigits(s)
    {
      PlusIsNoDigit(t);
    }
    if |s| > 1 && s[0] == '+' {
      assert s == "+" + s[1..];
    }
    hide Value, AllDigits;
  }

  lemma PlusIsNoDigit(t: string)
    ensures !AllDigits("+" + t) && ("+" + t)[0] == '+' && ("+" + t)[1..] == t
  {
    assert !IsDigit(("+" + t)[0]);
  }

  lemma DigitRoundTrip(d: nat)
    requires d < 10
    ensures IsDigit(Digit(d)) && DigitValue(Digit(d)) == d
  {
  }

  lemma {:induction false} FormatRoundTrip(n: nat)
    ensures Format(n) != "" && AllDigits(Format(n)) && Value(Format(n)) == n
    decreases n
  {
    if n < 10 {
      DigitRoundTrip(n);
      assert Value("") == 0;
      assert [Digit(n)][..0] == "";
    } else {
      FormatRoundTrip(n / 10);
      DigitRoundTrip(n % 10);
      var s := Format(n / 10);
      assert (s + [Digit(n % 10)])[..|s|] == s;
    }
  }

  lemma FormatHasNo(n: nat, c: char)
    requires !IsDigit(c)
    ensures c !in Format(n)
  {
    FormatRoundTrip(n);
  }

  lemma ParseFormat(n: nat, max: int)
    requires n <= max
    ensures Parse(Format(n), max) == Some(n)
  {
    FormatRoundTrip(n);
    assert IsDigit(Format(n)[0]);
  }

  function Power10(k: nat): nat {
    if k == 0 then 1 else 10 * Power10(k - 1)
  }

  lemma {:induction false} FormatLength(n: nat, k: nat)
    requires n < Power10(k) && k > 0
    ensures |Format(n)| <= k
    decreases k
  {
    if n >= 10 {
      assert Power10(k) == 10 * Power10(k - 1);
      assert k > 1 by { assert Power10(0) == 1; }
      FormatLength(n / 10, k - 1);
    }
  }

  lemma TenDigits()
    ensures Power10(10) == 10_000_000_000 > U32_MAX
  {
    assert Power10(5) == 100_000;
    PowerAdds(5, 5);
  }

  lemma TwentyDigits()
    ensures Power10(20) == 100_000_000_000_000_000_000 > U64_MAX
  {
    TenDigits();
    PowerAdds(10, 10);
  }

  lemma {:induction false} PowerAdds(a: nat, b: nat)
    ensures Power10(a + b) == Power10(a) * Power10(b)
    decreases a
  {
    if a > 0 {
      PowerAdds(a - 1, b);
    } else {
      assert Power10(0) == 1;
    }
  }

  // ---------------------------------------------------------------- job ids

  /** `job-<pid>-<start>-<request>`. */
  function JobId(pid: nat, start: u64, request: u64): string {
    "job-" + Format(pid) + "-" + Format(start) + "-" + Format(request)
  }

  predicate IsNameByte(c: char) {
    IsDigit(c) || 'a' <= c <= 'z' || 'A' <= c <= 'Z' || c == '-' || c == '_'
  }

  predicate ValidJobId(s: string) {
    s != "" && |s| <= MAX_JOB_ID && forall i :: 0 <= i < |s| ==> IsNameByte(s[i])
  }

  /** The process number and start time in a supervisor's job identifier; `None` for any other name. */
  function JobOwner(id: string): Option<(nat, nat)> {
    if !("job-" <= id) then None
    else
      var fields := Split(id[4..], DASH);
      if |fields| != 3 then None
      else
        match (Parse(fields[0], U32_MAX), Parse(fields[1], U64_MAX), Parse(fields[2], U64_MAX))
        case (Some(pid), Some(start), Some(_)) => Some((pid, start))
        case _ => None
  }

  lemma Regroup(p: string, a: string, d: string, b: string, c: string)
    ensures p + a + d + b + d + c == p + (a + d + (b + d + c))
  {
  }

  lemma StripPrefix(p: string, rest: string)
    ensures p <= p + rest && (p + rest)[|p|..] == rest
  {
  }

  lemma ThreeFields(a: string, b: string, c: string)
    requires DASH !in a && DASH !in b && DASH !in c
    ensures Split(a + [DASH] + (b + [DASH] + c), DASH) == [a, b, c]
  {
    SplitOne(c, DASH);
    SplitAt(b, DASH, c);
    SplitAt(a, DASH, b + [DASH] + c);
    hide Split;
    assert [a] + ([b] + [c]) == [a, b, c];
  }

  lemma JobIdFields(pid: nat, start: u64, request: u64)
    ensures "job-" <= JobId(pid, start, request)
    ensures Split(JobId(pid, start, request)[4..], DASH) == [Format(pid), Format(start), Format(request)]
  {
    var a, b, c := Format(pid), Format(start), Format(request);
    FormatHasNo(pid, DASH);
    FormatHasNo(start, DASH);
    FormatHasNo(request, DASH);
    hide Format, Split;
    Regroup("job-", a, "-", b, c);
    StripPrefix("job-", a + "-" + (b + "-" + c));
    ThreeFields(a, b, c);
  }

  /** Exactly which names have an owner: `job-` and three numbers between dashes. */
  lemma OwnedIff(id: string, pid: nat, start: nat)
    ensures JobOwner(id) == Some((pid, start))
       <==> exists a, b, c ::
              && DASH !in a && DASH !in b && DASH !in c && id == "job-" + (a + "-" + (b + "-" + c))
              && Parse(a, U32_MAX) == Some(pid) && Parse(b, U64_MAX) == Some(start) && Parse(c, U64_MAX).Some?
  {
    hide Parse, Split;
    forall a, b, c | DASH !in a && DASH !in b && DASH !in c && id == "job-" + (a + "-" + (b + "-" + c))
      ensures "job-" <= id && Split(id[4..], DASH) == [a, b, c]
    {
      StripPrefix("job-", a + "-" + (b + "-" + c));
      ThreeFields(a, b, c);
    }
    if JobOwner(id).Some? {
      var a, rest := Decompose(id[4..], DASH);
      var b, last := Decompose(rest.value, DASH);
      var c, none := Decompose(last.value, DASH);
      assert Split(id[4..], DASH) == [a] + ([b] + Split(last.value, DASH));
      assert none.None?;
      assert id == "job-" + id[4..];
      assert id == "job-" + (a + "-" + (b + "-" + c));
      assert Split(id[4..], DASH) == [a, b, c];
    }
  }

  /** Every identifier a supervisor generates names its owner. */
  lemma OwnerRoundTrip(pid: nat, start: u64, request: u64)
    requires pid <= U32_MAX
    ensures JobOwner(JobId(pid, start, request)) == Some((pid, start))
  {
    JobIdFields(pid, start, request);
    ParseFormat(pid, U32_MAX);
    ParseFormat(start, U64_MAX);
    ParseFormat(request, U64_MAX);
    hide JobId, Parse, Split, Format;
  }

  lemma JobIdIsInjective(p: nat, s: u64, r: u64, q: nat, t: u64, u: u64)
    requires JobId(p, s, r) == JobId(q, t, u)
    ensures p == q && s == t && r == u
  {
    JobIdFields(p, s, r);
    JobIdFields(q, t, u);
    hide JobId;
    var x, y := [Format(p), Format(s), Format(r)], [Format(q), Format(t), Format(u)];
    assert x[0] == y[0] && x[1] == y[1] && x[2] == y[2];
    FormatRoundTrip(p);
    FormatRoundTrip(q);
    FormatRoundTrip(s);
    FormatRoundTrip(t);
    FormatRoundTrip(r);
    FormatRoundTrip(u);
  }

  /** At most 56 characters, all of them allowed. */
  lemma JobIdIsValid(pid: nat, start: u64, request: u64)
    requires pid <= U32_MAX
    ensures |JobId(pid, start, request)| <= 56 && ValidJobId(JobId(pid, start, request))
  {
    TenDigits();
    TwentyDigits();
    FormatLength(pid, 10);
    FormatLength(start, 20);
    FormatLength(request, 20);
    FormatRoundTrip(pid);
    FormatRoundTrip(start);
    FormatRoundTrip(request);
    hide Format, Power10, Value;
    var id := JobId(pid, start, request);
    forall i | 0 <= i < |id|
      ensures IsNameByte(id[i])
    {
      assert id[i] in "job-" || id[i] in Format(pid) || id[i] in Format(start) || id[i] in Format(request);
    }
  }

  // --------------------------------------------------------- staging roots

  /** `mkdtemp` replaces the template's XXXXXX by letters and digits. */
  function StagingName(id: string, suffix: string): string {
    id + "-" + suffix
  }

  function StagingOwner(name: string): Option<string> {
    match RSplitOnce(name, DASH)
    case None => None
    case Some((id, _)) => Some(id)
  }

  /** A staging root maps back to its job, and so is removed for that job and no other. */
  lemma StagingRoundTrip(id: string, suffix: string)
    requires DASH !in suffix
    ensures StagingOwner(StagingName(id, suffix)) == Some(id)
  {
    RSplitAt(id, DASH, suffix);
  }

  // -------------------------------------------------------------- start time

  /** Unicode white space. */
  predicate IsSpace(c: char) {
    var u := c as int;
    || 0x09 <= u <= 0x0d || u == 0x20 || u == 0x85 || u == 0xa0 || u == 0x1680
    || 0x2000 <= u <= 0x200a || u == 0x2028 || u == 0x2029 || u == 0x202f || u == 0x205f || u == 0x3000
  }

  function WordEnd(s: string): (e: nat)
    ensures e <= |s|
    ensures s != "" && !IsSpace(s[0]) ==> e > 0
  {
    if s == "" || IsSpace(s[0]) then 0 else 1 + WordEnd(s[1..])
  }

  /** Rust's `split_whitespace`. */
  function Words(s: string): seq<string>
    decreases |s|
  {
    if s == "" then []
    else if IsSpace(s[0]) then Words(s[1..])
    else [s[..WordEnd(s)]] + Words(s[WordEnd(s)..])
  }

  predicate IsWord(w: string) {
    w != "" && forall i :: 0 <= i < |w| ==> !IsSpace(w[i])
  }

  lemma {:induction false} WordEndsAt(w: string, rest: string)
    requires forall i :: 0 <= i < |w| ==> !IsSpace(w[i])
    requires rest != "" && IsSpace(rest[0])
    ensures WordEnd(w + rest) == |w|
    decreases |w|
  {
    if w == "" {
      assert w + rest == rest;
    } else {
      assert (w + rest)[1..] == w[1..] + rest;
      WordEndsAt(w[1..], rest);
    }
  }

  lemma FirstWord(w: string, rest: string)
    requires IsWord(w) && rest != "" && IsSpace(rest[0])
    ensures Words(" " + w + rest) == [w] + Words(rest)
  {
    var s := w + rest;
    assert (" " + w + rest)[1..] == s;
    assert IsSpace(' ');
    assert (" " + w + rest)[0] == ' ';
    WordEndsAt(w, rest);
    assert s[0] == w[0] && s[..|w|] == w && s[|w|..] == rest;
  }

  /** Fields as the kernel prints them: each after a space, and a final newline. */
  function Spaced(fields: seq<string>): string {
    if fields == [] then "\n" else " " + fields[0] + Spaced(fields[1..])
  }

  lemma {:induction false} WordsOfSpaced(fields: seq<string>)
    requires forall i :: 0 <= i < |fields| ==> IsWord(fields[i])
    ensures Words(Spaced(fields)) == fields
    ensures Spaced(fields) != "" && IsSpace(Spaced(fields)[0])
    decreases |fields|
  {
    if fields == [] {
      assert "\n"[0] == '\n' && IsSpace('\n');
      assert "\n"[1..] == "";
      assert Words("") == [];
    } else {
      WordsOfSpaced(fields[1..]);
      FirstWord(fields[0], Spaced(fields[1..]));
      assert IsSpace(' ');
      assert [fields[0]] + fields[1..] == fields;
    }
  }

  function ParseStartTime(stat: string): Option<nat> {
    match RSplitOnce(stat, ')')
    case None => None
    case Some((_, after)) =>
      var words := Words(after);
      if |words| <= 19 then None else Parse(words[19], U64_MAX)
  }

  /** A `/proc/<pid>/stat` record: field 2 is the command in parentheses, `fields` are 3 and following. */
  function StatRecord(pid: nat, command: string, fields: seq<string>): string {
    Format(pid) + " (" + command + ")" + Spaced(fields)
  }

  predicate StatFields(fields: seq<string>) {
    forall i :: 0 <= i < |fields| ==> IsWord(fields[i]) && ')' !in fields[i]
  }

  lemma {:induction false} NoParenthesis(fields: seq<string>)
    requires StatFields(fields)
    ensures ')' !in Spaced(fields)
    decreases |fields|
  {
    if fields != [] {
      NoParenthesis(fields[1..]);
    }
  }

  /** Field 22 is found whatever the command name contains. */
  lemma StartTimeOf(pid: nat, command: string, fields: seq<string>)
    requires StatFields(fields)
    ensures ParseStartTime(StatRecord(pid, command, fields))
         == if |fields| <= 19 then None else Parse(fields[19], U64_MAX)
  {
    NoParenthesis(fields);
    WordsOfSpaced(fields);
    hide Words, Spaced, Format;
    RSplitAt(Format(pid) + " (" + command, ')', Spaced(fields));
    assert Format(pid) + " (" + command + [')'] + Spaced(fields) == StatRecord(pid, command, fields);
  }

  /** What reading `/proc/<pid>/stat` gives: no such process; an error, or bytes that are not UTF-8; the text. */
  datatype Reading = NoProcess | Unreadable | Text(record: string)

  predicate OwnerIsDead(id: string, stat: nat -> Reading) {
    match JobOwner(id)
    case None => false
    case Some((pid, start)) =>
      match stat(pid)
      case Text(record) => ParseStartTime(record) != Some(start)
      case _ => true
  }

  /** The process with that number, which started at `now`, is the one that started the job. */
  predicate OwnerLives(reading: Reading, start: u64, now: u64) {
    !reading.NoProcess? && now == start
  }

  /** A job is stale exactly when its owner is gone, or its owner's record cannot be read although it lives. */
  lemma StaleIffOwnerGone(pid: nat, start: u64, request: u64, stat: nat -> Reading, command: string,
      fields: seq<string>, now: u64)
    requires pid <= U32_MAX && StatFields(fields) && |fields| > 19 && fields[19] == Format(now)
    requires stat(pid).Text? ==> stat(pid).record == StatRecord(pid, command, fields)
    ensures OwnerIsDead(JobId(pid, start, request), stat)
       <==> !OwnerLives(stat(pid), start, now) || stat(pid).Unreadable?
  {
    OwnerRoundTrip(pid, start, request);
    StartTimeOf(pid, command, fields);
    ParseFormat(now, U64_MAX);
    hide JobId, JobOwner, ParseStartTime, StatRecord, Parse, Format;
  }
}
