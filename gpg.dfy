/** What both gpg modules share: the four gpg commands, the runner and its
    replies, the attempt trace keyed by command, server-URL normalisation,
    and the order and stopping rule of the retry-across-servers loop. */
module Gpg {
  import opened PyFormat

  /** The keys of the `commands` dict; they also key the attempt trace. */
  datatype Command = Check | Delete | Refresh | Recv

  const ALL_COMMANDS: set<Command> := {Check, Delete, Refresh, Recv}

  /** The dict `{'rc': .., 'stdout': .., 'stderr': ..}` built from the
      tuple that `run_command` returns. */
  datatype Record = Record(rc: int, stdout: string, stderr: string)

  /** An exception the module raises instead of returning. */
  datatype PyError =
    | FormatError       // TypeError/ValueError raised by `%`
    | KeyError(key: string)

  /** A value returned normally, or an exception raised. */
  datatype Result<+T> = Ok(value: T) | Raise(error: PyError)

  /** The per-command entry of the trace:
      `{'tries': [record, ...], 'num_tries': n}`. */
  datatype Section = Section(tries: seq<Record>, numTries: int)

  const EMPTY_SECTION := Section([], 0)

  /** The attempt trace, keyed by command name. */
  type Trace = map<Command, Section>

  /** Every section's count agrees with its list of records. */
  predicate Counted(log: Trace) {
    forall c :: c in log ==> log[c].numTries == |log[c].tries|
  }

  /** `log[sec]['tries'].append(r); log[sec]['num_tries'] += 1`, after
      creating an empty section for `sec` if there is none. */
  function Logged(log: Trace, sec: Command, r: Record): Trace {
    var s := if sec in log then log[sec] else EMPTY_SECTION;
    log[sec := Section(s.tries + [r], s.numTries + 1)]
  }

  /** Recording adds `r` at the end of the section of `sec`, creating it if
      needed, leaves every other section as it was and keeps every count in
      step with its list. */
  lemma LoggedFacts(log: Trace, sec: Command, r: Record)
    ensures Logged(log, sec, r).Keys == log.Keys + {sec}
    ensures Logged(log, sec, r)[sec].tries == (if sec in log then log[sec].tries else []) + [r]
    ensures forall c :: c in log && c != sec ==> Logged(log, sec, r)[c] == log[c]
    ensures Counted(log) ==> Counted(Logged(log, sec, r))
  {
  }

  /** The trace after recording the records `rs` under `sec`. */
  function LoggedAll(log: Trace, sec: Command, rs: seq<Record>): Trace {
    if rs == [] then log
    else
      var s := if sec in log then log[sec] else EMPTY_SECTION;
      log[sec := Section(s.tries + rs, s.numTries + |rs|)]
  }

  /** `LoggedAll` is `_legiblify` applied to the records one at a time. */
  lemma LoggedAllStep(log: Trace, sec: Command, rs: seq<Record>, r: Record)
    ensures LoggedAll(log, sec, rs + [r]) == Logged(LoggedAll(log, sec, rs), sec, r)
  {
    var s := if sec in log then log[sec] else EMPTY_SECTION;
    if rs == [] {
      assert rs + [r] == [r];
    } else {
      assert s.tries + rs + [r] == s.tries + (rs + [r]);
    }
  }

  /** Recording a run of records: nothing for none, otherwise they follow
      the earlier records of `sec` in order; other sections are untouched
      and counts stay in step. */
  lemma LoggedAllFacts(log: Trace, sec: Command, rs: seq<Record>)
    ensures rs == [] ==> LoggedAll(log, sec, rs) == log
    ensures rs != [] ==> LoggedAll(log, sec, rs).Keys == log.Keys + {sec}
    ensures rs != [] ==> LoggedAll(log, sec, rs)[sec].tries == (if sec in log then log[sec].tries else []) + rs
    ensures forall c :: c in log && c != sec ==> LoggedAll(log, sec, rs)[c] == log[c]
    ensures Counted(log) ==> Counted(LoggedAll(log, sec, rs))
  {
  }

  /** `run_command`, modelled as an oracle: the n-th command issued through
      this runner is answered by `respond(n)`, whatever it is. The runner
      keeps the list of commands issued so far. */
  class Runner {
    const respond: nat -> Record
    var issued: seq<string>

    constructor (respond: nat -> Record)
      ensures this.respond == respond && issued == []
    {
      this.respond := respond;
      issued := [];
    }

    method Run(cmd: string) returns (r: Record)
      modifies this
      ensures issued == old(issued) + [cmd]
      ensures r == respond(|old(issued)|)
    {
      r := respond(|issued|);
      issued := issued + [cmd];
    }
  }

  /** The answers to `n` commands issued from position `base` on. */
  function Answers(respond: nat -> Record, base: nat, n: nat): (rs: seq<Record>)
    ensures |rs| == n && forall i :: 0 <= i < n ==> rs[i] == respond(base + i)
  {
    seq(n, i requires 0 <= i < n => respond(base + i))
  }

  /** `re.match('hkps?://', s)`: `s` starts with `hkp://` or `hkps://`. */
  predicate HasScheme(s: string) {
    (|s| >= 6 && s[..6] == "hkp://") || (|s| >= 7 && s[..7] == "hkps://")
  }

  /** One entry of the URL list: kept when it already names a scheme,
      otherwise given `hkp://`. */
  function NormaliseUrl(s: string): (u: string)
    ensures HasScheme(u)
    ensures HasScheme(s) ==> u == s
    ensures !HasScheme(s) ==> u == "hkp://" + s
  {
    if HasScheme(s) then s
    else
      assert ("hkp://" + s)[..6] == "hkp://";
      "hkp://" + s
  }

  /** The server list as the list of URLs to try, entry by entry. */
  function Normalise(servers: seq<string>): (urls: seq<string>)
    ensures |urls| == |servers|
    ensures forall i :: 0 <= i < |urls| ==> urls[i] == NormaliseUrl(servers[i])
    ensures forall i :: 0 <= i < |urls| ==> HasScheme(urls[i])
  {
    seq(|servers|, i requires 0 <= i < |servers| => NormaliseUrl(servers[i]))
  }

  /** Normalising twice changes nothing: every URL already has a scheme. */
  lemma NormaliseIdempotent(servers: seq<string>)
    ensures Normalise(Normalise(servers)) == Normalise(servers)
  {
    var urls := Normalise(servers);
    forall i | 0 <= i < |urls| ensures Normalise(urls)[i] == urls[i] {
      assert HasScheme(urls[i]);
    }
  }

  /** Normalisation works entry by entry, so it keeps the order: the URLs
      of a concatenation are the concatenation of the URLs. */
  lemma NormaliseConcat(a: seq<string>, b: seq<string>)
    ensures Normalise(a + b) == Normalise(a) + Normalise(b)
  {
    forall i | 0 <= i < |a| + |b|
      ensures Normalise(a + b)[i] == (Normalise(a) + Normalise(b))[i]
    {
      if i < |a| {
        assert (a + b)[i] == a[i];
      } else {
        assert (a + b)[i] == b[i - |a|];
      }
    }
  }

  /** The URL of each attempt of `for n in range(tries): for u in urls`,
      in the order the attempts are made. */
  function Rounds(tries: int, urls: seq<string>): seq<string>
    decreases tries
  {
    if tries <= 0 then [] else Rounds(tries - 1, urls) + urls
  }

  /** The loop makes at most `tries * |urls|` attempts, and none when
      `tries` is not positive. */
  lemma {:induction false} RoundsLength(tries: int, urls: seq<string>)
    ensures |Rounds(tries, urls)| == if tries <= 0 then 0 else tries * |urls|
    decreases tries
  {
    if tries > 0 {
      RoundsLength(tries - 1, urls);
      assert tries * |urls| == (tries - 1) * |urls| + |urls|;
    }
  }

  /** Try-major, URL-minor order: in try `n` (counting from 0) the loop
      makes attempt number `n * |urls| + j` with the `j`-th URL. */
  lemma RoundsOrder(tries: int, urls: seq<string>, n: nat, j: nat)
    requires n < tries && j < |urls|
    ensures n * |urls| + j < |Rounds(tries, urls)|
    ensures Rounds(tries, urls)[n * |urls| + j] == urls[j]
  {
    RoundsNext(tries, urls, n, j);
    RoundsLength(n, urls);
  }

  /** The attempt after `n` complete rounds and `j` URLs of the next one
      uses the `j`-th URL. */
  lemma RoundsNext(tries: int, urls: seq<string>, n: nat, j: nat)
    requires n < tries && j < |urls|
    ensures |Rounds(n, urls)| + j < |Rounds(tries, urls)|
    ensures Rounds(tries, urls)[|Rounds(n, urls)| + j] == urls[j]
  {
    RoundsPrefix(n, j + 1, tries, urls);
    assert (Rounds(n, urls) + urls[..j + 1])[|Rounds(n, urls)| + j] == urls[j];
  }

  /** After `n` complete rounds and `j` URLs of the next one, the loop has
      visited exactly a prefix of the full grid. */
  lemma {:induction false} RoundsPrefix(n: nat, j: nat, tries: int, urls: seq<string>)
    requires n < tries && j <= |urls|
    ensures |Rounds(n, urls)| + j <= |Rounds(tries, urls)|
    ensures Rounds(n, urls) + urls[..j] == Rounds(tries, urls)[..|Rounds(n, urls)| + j]
    decreases tries
  {
    var prev := Rounds(tries - 1, urls);
    if n == tries - 1 {
      assert (prev + urls)[..|prev| + j] == prev + urls[..j];
    } else {
      RoundsPrefix(n, j, tries - 1, urls);
      assert (prev + urls)[..|Rounds(n, urls)| + j] == prev[..|Rounds(n, urls)| + j];
    }
  }

  /** Index of the first record with `rc == 0`, or `|rs|` if there is none. */
  function FirstSuccess(rs: seq<Record>): (k: nat)
    ensures k <= |rs|
    ensures forall i :: 0 <= i < k ==> rs[i].rc != 0
    ensures k < |rs| ==> rs[k].rc == 0
  {
    if rs == [] then 0
    else if rs[0].rc == 0 then 0
    else 1 + FirstSuccess(rs[1..])
  }

  /** What a loop over `n` attempts that stops at the first `rc == 0` gets
      to see: the answers it receives and whether the last one succeeded. */
  datatype Retry = Retry(answers: seq<Record>, succeeded: bool)

  function RetrySpec(all: seq<Record>): Retry {
    var k := FirstSuccess(all);
    if k < |all| then Retry(all[..k + 1], true) else Retry(all, false)
  }

  /** The loop sees a prefix of the answers; it succeeds exactly when some
      answer has `rc == 0`, and then its last answer is the first such;
      every earlier answer failed; when nothing succeeded it saw them all. */
  lemma RetryFacts(all: seq<Record>)
    ensures var r := RetrySpec(all);
      && |r.answers| <= |all| && r.answers == all[..|r.answers|]
      && (r.succeeded <==> exists i :: 0 <= i < |all| && all[i].rc == 0)
      && (r.succeeded ==> r.answers != [] && r.answers[|r.answers| - 1].rc == 0)
      && (forall i :: 0 <= i < |r.answers| - 1 ==> r.answers[i].rc != 0)
      && (!r.succeeded ==> r.answers == all)
  {
    assert all[..|all|] == all;
  }

  /** A first answer that failed is seen, and the loop carries on with the
      rest. */
  lemma RetryCons(all: seq<Record>)
    requires all != [] && all[0].rc != 0
    ensures RetrySpec(all) == Retry([all[0]] + RetrySpec(all[1..]).answers, RetrySpec(all[1..]).succeeded)
  {
    var k := FirstSuccess(all[1..]);
    assert FirstSuccess(all) == 1 + k;
    if k < |all| - 1 {
      assert all[..k + 2] == [all[0]] + all[1..][..k + 1];
    } else {
      assert all == [all[0]] + all[1..];
    }
  }

  /** The spec pinned down by what the loop observed: `v` failures, then a
      success at `v` or the end of the grid. */
  lemma RetryAt(all: seq<Record>, v: nat)
    requires v <= |all|
    requires forall i :: 0 <= i < v ==> all[i].rc != 0
    requires v == |all| || all[v].rc == 0
    ensures RetrySpec(all) == if v < |all| then Retry(all[..v + 1], true) else Retry(all, false)
  {
    assert FirstSuccess(all) == v;
  }

  /** One run of a retry loop: what it returns, the command lines it
      issued, the runner's answers to them and the sleeps, in order. */
  datatype RepeatRun<R> = RepeatRun(reply: R, issued: seq<string>, answers: seq<Record>, sleeps: nat)

  /** The run `r`, preceded by the commands `done`, their answers `got`
      and `s` sleeps. */
  function Preceded<R>(done: seq<string>, got: seq<Record>, s: nat, r: RepeatRun<R>): RepeatRun<R> {
    RepeatRun(r.reply, done + r.issued, got + r.answers, s + r.sleeps)
  }

  lemma PrecededTwice<R>(a: seq<string>, b: seq<Record>, s: nat, c: seq<string>, d: seq<Record>, t: nat,
                         r: RepeatRun<R>)
    ensures Preceded(a, b, s, Preceded(c, d, t, r)) == Preceded(a + c, b + d, s + t, r)
  {
    assert a + (c + r.issued) == a + c + r.issued;
    assert b + (d + r.answers) == b + d + r.answers;
  }

  /** The state of a retry loop part way through: `v` attempts made and
      failed, having issued `done` and received `got`, all recorded under
      `sec`; the rest of the run is `rest`, and together they make the
      whole run `goal`. */
  ghost predicate Midway<R>(goal: RepeatRun<R>, rest: RepeatRun<R>, done: seq<string>, got: seq<Record>, v: nat,
                            sec: Command, issued0: seq<string>, log0: Trace, sleeps0: nat,
                            issued: seq<string>, log: Trace, sleeps: nat) {
    goal == Preceded(done, got, v, rest)
    && |done| == v
    && issued == issued0 + done && log == LoggedAll(log0, sec, got) && sleeps == sleeps0 + v
  }

  /** The state a retry loop leaves behind when it returns or raises as
      `r` says, from the runner history, trace and sleep count it started
      with. */
  predicate Returned<R(==)>(r: RepeatRun<R>, res: R, sec: Command, issued0: seq<string>, log0: Trace, sleeps0: nat,
                            issued: seq<string>, log: Trace, sleeps: nat) {
    res == r.reply && issued == issued0 + r.issued && log == LoggedAll(log0, sec, r.answers) && sleeps == sleeps0 + r.sleeps
  }

  /** The order in which both modules visit their `commands` dict: the
      order its keys were inserted in. */
  const DICT_ORDER := [Check, Delete, Refresh, Recv]

  function Position(c: Command): (k: nat)
    ensures k < |DICT_ORDER| && DICT_ORDER[k] == c
  {
    match c
    case Check => 0
    case Delete => 1
    case Refresh => 2
    case Recv => 3
  }
}
