/** The `gpg_keys_mod` module: makes sure a key is in the keyring,
    receiving it from a list of key servers, or refreshes or deletes it on
    request, retrying across servers, and reports every gpg call it made
    keyed by command. */
module GpgKeysMod {
  import opened PyFormat
  import opened Gpg

  /** The module options `setup_creds` copies onto the object. The float
      `delay` is left out: it only parameterises `sleep`. */
  datatype Params = Params(
    keyId: string,
    servers: seq<string>,
    tries: int,
    refresh: bool,
    delete: bool)

  // The four command templates, split after each conversion only so that
  // the proofs below can walk them piece by piece.
  const CHECK_TEMPLATE := "%s" + " --list-keys " + "%%s"
  const DELETE_TEMPLATE := "%s" + " --batch --yes --delete-keys " + "%%s"
  const REFRESH_TEMPLATE := "%s" + " --keyserver " + "%%s" + " --refresh-keys " + "%%s"
  const RECV_TEMPLATE := "%s" + " --keyserver " + "%%s" + " --recv-keys " + "%%s"

  function Template(c: Command): string {
    match c
    case Check => CHECK_TEMPLATE
    case Delete => DELETE_TEMPLATE
    case Refresh => REFRESH_TEMPLATE
    case Recv => RECV_TEMPLATE
  }

  /** What `setup_creds` leaves in `commands[c]`: the binary filled in, a
      `%s` kept for the key id and, in `refresh` and `recv`, one before it
      for the server. */
  function Prepared(c: Command, bp: string): string {
    match c
    case Check => bp + " --list-keys " + "%s"
    case Delete => bp + " --batch --yes --delete-keys " + "%s"
    case Refresh => bp + " --keyserver " + "%s" + " --refresh-keys " + "%s"
    case Recv => bp + " --keyserver " + "%s" + " --recv-keys " + "%s"
  }

  /** The command line gpg is run with for `c`; `url` only matters for
      `refresh` and `recv`. */
  function Line(c: Command, bp: string, key: string, url: string): string {
    match c
    case Check => bp + " --list-keys " + key
    case Delete => bp + " --batch --yes --delete-keys " + key
    case Refresh => bp + " --keyserver " + url + " --refresh-keys " + key
    case Recv => bp + " --keyserver " + url + " --recv-keys " + key
  }

  /** The `commands` dict after `setup_creds`. */
  function Commands(bp: string): (m: map<Command, string>)
    ensures m.Keys == ALL_COMMANDS
  {
    map c | c in ALL_COMMANDS :: Prepared(c, bp)
  }

  /** `c_results` after `setup_creds`: one empty section per command. */
  const NO_RESULTS: Trace := map c | c in ALL_COMMANDS :: EMPTY_SECTION

  // ---------------------------------------------------------------------
  // The two formatting stages

  /** Text without `%`, then the escape `%%` followed by `s`: one literal
      `%s` in the result, and no argument consumed. */
  lemma EscapedSlot(a: string, rest: string, args: seq<Arg>)
    requires NoPercent(a)
    ensures Format(a + "%%s" + rest, args) == Prepend(a + "%s", Format(rest, args))
  {
    assert a + "%%s" + rest == a + "%%" + ("s" + rest);
    TextEscape(a, "s" + rest, args);
    FormatText("s", rest, args);
    PrependTwice(a + "%", "s", Format(rest, args));
    assert a + "%" + "s" == a + "%s";
  }

  lemma ClosedTemplate(a: string, bp: string)
    requires NoPercent(a)
    ensures Format("%s" + a + "%%s", [Str(bp)]) == Some(bp + a + "%s")
  {
    assert "%s" + a + "%%s" == "%s" + (a + "%%s" + "");
    assert [Str(bp)] == [Str(bp)] + [];
    FormatStr(a + "%%s" + "", Str(bp), []);
    EscapedSlot(a, "", []);
    Closed("", []);
    assert bp + (a + "%s" + "") == bp + a + "%s";
  }

  lemma OpenTemplate(a: string, verb: string, bp: string)
    requires NoPercent(a) && NoPercent(verb)
    ensures Format("%s" + a + "%%s" + verb + "%%s", [Str(bp)]) == Some(bp + a + "%s" + verb + "%s")
  {
    assert "%s" + a + "%%s" + verb + "%%s" == "%s" + (a + "%%s" + (verb + "%%s" + ""));
    assert [Str(bp)] == [Str(bp)] + [];
    FormatStr(a + "%%s" + (verb + "%%s" + ""), Str(bp), []);
    EscapedSlot(a, verb + "%%s" + "", []);
    EscapedSlot(verb, "", []);
    Closed("", []);
    PrependTwice(a + "%s", verb + "%s", Some(""));
    assert bp + (a + "%s" + (verb + "%s" + "")) == bp + a + "%s" + verb + "%s";
  }

  /** Stage one: `l % bp` fills the binary into every template, whatever
      the binary path is, and keeps the escaped slots as `%s`. */
  lemma StageOne(c: Command, bp: string)
    ensures Format(Template(c), [Str(bp)]) == Some(Prepared(c, bp))
  {
    match c
    case Check => ClosedTemplate(" --list-keys ", bp);
    case Delete => ClosedTemplate(" --batch --yes --delete-keys ", bp);
    case Refresh => OpenTemplate(" --keyserver ", " --refresh-keys ", bp);
    case Recv => OpenTemplate(" --keyserver ", " --recv-keys ", bp);
  }

  /** `commands[cmd] % (u, self.key_id)` in `repeat_command`. */
  function Fill(template: string, url: string, key: string): Option<string> {
    Format(template, [Str(url), Str(key)])
  }

  /** `commands[cmd] % self.key_id` in `execute_command`. */
  function Issue(template: string, key: string): Option<string> {
    Format(template, [Str(key)])
  }

  lemma OneSlot(head: string, key: string)
    requires NoPercent(head)
    ensures Format(head + "%s" + "", [Str(key)]) == Some(head + key)
  {
    assert [Str(key)] == [Str(key)] + [];
    TextStr(head, "", key, []);
    Closed("", []);
    assert head + key + "" == head + key;
  }

  lemma TwoSlots(head: string, verb: string, url: string, key: string)
    requires NoPercent(head) && NoPercent(verb)
    ensures Format(head + "%s" + (verb + "%s" + ""), [Str(url), Str(key)]) == Some(head + url + verb + key)
  {
    assert [Str(url), Str(key)] == [Str(url)] + [Str(key)];
    TextStr(head, verb + "%s" + "", url, [Str(key)]);
    OneSlot(verb, key);
    assert head + url + (verb + key) == head + url + verb + key;
  }

  /** Stage two: once the binary path holds no `%`, `check` and `delete`
      take exactly the key id and `refresh` and `recv` exactly the server
      and the key id, whatever characters those hold: both are arguments
      of the second `%`, never part of its template. */
  lemma StageTwo(c: Command, bp: string, key: string, url: string)
    requires NoPercent(bp)
    ensures c == Check || c == Delete ==> Issue(Prepared(c, bp), key) == Some(Line(c, bp, key, url))
    ensures c == Refresh || c == Recv ==> Fill(Prepared(c, bp), url, key) == Some(Line(c, bp, key, url))
  {
    match c
    case Check =>
      assert bp + " --list-keys " + "%s" == (bp + " --list-keys ") + "%s" + "";
      OneSlot(bp + " --list-keys ", key);
    case Delete =>
      assert bp + " --batch --yes --delete-keys " + "%s" == (bp + " --batch --yes --delete-keys ") + "%s" + "";
      OneSlot(bp + " --batch --yes --delete-keys ", key);
    case Refresh =>
      assert bp + " --keyserver " + "%s" + " --refresh-keys " + "%s" == (bp + " --keyserver ") + "%s" + (" --refresh-keys " + "%s" + "");
      TwoSlots(bp + " --keyserver ", " --refresh-keys ", url, key);
    case Recv =>
      assert bp + " --keyserver " + "%s" + " --recv-keys " + "%s" == (bp + " --keyserver ") + "%s" + (" --recv-keys " + "%s" + "");
      TwoSlots(bp + " --keyserver ", " --recv-keys ", url, key);
  }

  /** Whether the second `%` of `repeat_command` succeeds on `template`.
      Server and key id are both strings, so this does not depend on them. */
  predicate Fillable(template: string) {
    Fill(template, "", "").Some?
  }

  lemma FillAt(template: string, url: string, key: string)
    ensures Fill(template, url, key).Some? == Fillable(template)
  {
    FormatKinds(template, [Str(url), Str(key)], [Str(""), Str("")]);
  }

  // ---------------------------------------------------------------------
  // `repeat_command`

  /** One run of `repeat_command`: it returns 0, returns nothing (`None`)
      once every attempt failed, or raises. */
  type Run = RepeatRun<Result<Option<int>>>

  /** The loop of `repeat_command` from attempt number `v` on, over the
      URLs `grid` in the order it visits them; attempt `v` is answered by
      `respond(base + v)`. Past the last attempt the function falls off its
      end and returns `None`. */
  function Attempt(template: string, key: string, grid: seq<string>, respond: nat -> Record, base: nat, v: nat): Run
    decreases |grid| - v, 1
  {
    if v >= |grid| then RepeatRun(Ok(None), [], [], 0)
    else Step(template, key, grid, respond, base, v)
  }

  /** Attempt `v` when there is one: formatting raises; otherwise gpg runs,
      its answer is recorded, the loop sleeps, and then returns 0 on success
      or goes on with attempt `v + 1`. */
  function Step(template: string, key: string, grid: seq<string>, respond: nat -> Record, base: nat, v: nat): Run
    requires v < |grid|
    decreases |grid| - v, 0
  {
    match Fill(template, grid[v], key)
    case None => RepeatRun(Raise(FormatError), [], [], 0)
    case Some(line) =>
      var rec := respond(base + v);
      if rec.rc == 0 then RepeatRun(Ok(Some(0)), [line], [rec], 1)
      else Preceded([line], [rec], 1, Attempt(template, key, grid, respond, base, v + 1))
  }

  /** `repeat_command` with `tries` and `urls`, when the runner's next
      answers are `respond(base)`, `respond(base + 1)`, ... */
  function Repeat(template: string, key: string, urls: seq<string>, tries: int, respond: nat -> Record, base: nat): Run {
    Attempt(template, key, Rounds(tries, urls), respond, base, 0)
  }

  /** From attempt `v` on: one answer, one command and one sleep per
      attempt made, answers taken in order; a raise comes before anything
      runs and only when the template cannot be filled; 0 is returned right
      after the first success; `None` after every remaining attempt failed. */
  lemma {:induction false} AttemptFacts(template: string, key: string, grid: seq<string>, respond: nat -> Record,
                                        base: nat, v: nat)
    requires v <= |grid|
    ensures var r := Attempt(template, key, grid, respond, base, v);
      && |r.issued| == |r.answers| == r.sleeps <= |grid| - v
      && (forall i :: 0 <= i < |r.answers| ==> r.answers[i] == respond(base + v + i))
      && (r.reply.Raise? <==> v < |grid| && !Fillable(template))
      && (r.reply.Raise? ==> r.reply.error == FormatError && r.answers == [])
      && (r.reply.Ok? && r.reply.value.Some? ==>
            r.reply.value.value == 0 && r.answers != [] && r.answers[|r.answers| - 1].rc == 0
            && forall i :: 0 <= i < |r.answers| - 1 ==> r.answers[i].rc != 0)
      && (r.reply.Ok? && r.reply.value.None? ==>
            |r.answers| == |grid| - v && forall i :: 0 <= i < |r.answers| ==> r.answers[i].rc != 0)
    decreases |grid| - v
  {
    if v < |grid| {
      var r := Attempt(template, key, grid, respond, base, v);
      assert r == Step(template, key, grid, respond, base, v);
      FillAt(template, grid[v], key);
      var rec := respond(base + v);
      if Fillable(template) && rec.rc != 0 {
        AttemptFacts(template, key, grid, respond, base, v + 1);
        var rest := Attempt(template, key, grid, respond, base, v + 1);
        assert r.answers == [rec] + rest.answers;
        forall i | 0 < i < |r.answers|
          ensures r.answers[i] == respond(base + v + i)
        {
          assert r.answers[i] == rest.answers[i - 1];
        }
      }
    }
  }

  /** From attempt `v` on, the `i`-th command issued is the template filled
      with the URL of grid cell `v + i`. */
  lemma {:induction false} AttemptIssued(template: string, key: string, grid: seq<string>, respond: nat -> Record,
                                         base: nat, v: nat, i: nat)
    requires v <= |grid|
    requires i < |Attempt(template, key, grid, respond, base, v).issued|
    ensures v + i < |grid|
    ensures Some(Attempt(template, key, grid, respond, base, v).issued[i]) == Fill(template, grid[v + i], key)
    decreases |grid| - v
  {
    var r := Attempt(template, key, grid, respond, base, v);
    assert r == Step(template, key, grid, respond, base, v);
    if i > 0 {
      var rest := Attempt(template, key, grid, respond, base, v + 1);
      assert r.issued[i] == rest.issued[i - 1];
      AttemptIssued(template, key, grid, respond, base, v + 1, i - 1);
    }
  }

  /** What `repeat_command` promises: one answer, one command and one sleep
      per attempt, success included, at most `tries * |urls|` of them and
      the answers in order; it raises only before running anything, when
      the template cannot be filled; it returns 0 right after the first
      success, and otherwise returns nothing once every attempt failed; with
      no try or no server it runs nothing. */
  lemma RepeatFacts(template: string, key: string, urls: seq<string>, tries: int, respond: nat -> Record, base: nat)
    ensures var r := Repeat(template, key, urls, tries, respond, base);
      && |r.issued| == |r.answers| == r.sleeps <= |Rounds(tries, urls)|
      && (forall i :: 0 <= i < |r.answers| ==> r.answers[i] == respond(base + i))
      && (r.reply.Raise? <==> Rounds(tries, urls) != [] && !Fillable(template))
      && (r.reply.Raise? ==> r.reply.error == FormatError && r.answers == [])
      && (r.reply.Ok? && r.reply.value.Some? ==>
            r.reply.value.value == 0 && r.answers != [] && r.answers[|r.answers| - 1].rc == 0
            && forall i :: 0 <= i < |r.answers| - 1 ==> r.answers[i].rc != 0)
      && (r.reply.Ok? && r.reply.value.None? ==>
            |r.answers| == |Rounds(tries, urls)| && forall i :: 0 <= i < |r.answers| ==> r.answers[i].rc != 0)
      && (tries <= 0 || urls == [] ==> r == RepeatRun(Ok(None), [], [], 0))
  {
    AttemptFacts(template, key, Rounds(tries, urls), respond, base, 0);
    RoundsLength(tries, urls);
  }

  /** Try-major, URL-minor: the attempt made in try `n` with the `j`-th URL
      is attempt number `n * |urls| + j`, and gpg is run with that URL. */
  lemma RepeatOrder(template: string, key: string, urls: seq<string>, tries: int, respond: nat -> Record, base: nat,
                    n: nat, j: nat)
    requires n < tries && j < |urls|
    requires n * |urls| + j < |Repeat(template, key, urls, tries, respond, base).issued|
    ensures Some(Repeat(template, key, urls, tries, respond, base).issued[n * |urls| + j]) == Fill(template, urls[j], key)
  {
    RoundsOrder(tries, urls, n, j);
    AttemptIssued(template, key, Rounds(tries, urls), respond, base, 0, n * |urls| + j);
  }

  /** Before the first attempt, the whole run is still to come. */
  lemma RepeatStart(template: string, key: string, urls: seq<string>, tries: int, respond: nat -> Record, base: nat)
    ensures Repeat(template, key, urls, tries, respond, base)
         == Preceded([], [], 0, Attempt(template, key, Rounds(tries, urls), respond, base, 0))
  {
    var r := Repeat(template, key, urls, tries, respond, base);
    assert [] + r.issued == r.issued && [] + r.answers == r.answers;
  }

  /** Past the last attempt the run is the attempts already made, and
      `None`. */
  lemma RepeatEnd(template: string, key: string, grid: seq<string>, respond: nat -> Record, base: nat,
                  done: seq<string>, got: seq<Record>)
    ensures Preceded(done, got, |grid|, Attempt(template, key, grid, respond, base, |grid|))
         == RepeatRun(Ok(None), done, got, |grid|)
  {
    assert done + [] == done && got + [] == got;
  }

  // ---------------------------------------------------------------------
  // `main`

  /** The message `fail_json` reports: a text, or the `recv` section of
      `c_results`. */
  datatype Message = Text(text: string) | Results(section: Section)

  /** What the module reports: `exit_json(c_results=.., changed=..)`,
      `fail_json(msg=..)`, or an exception. */
  datatype Outcome = Exit(changed: bool, cResults: Trace) | Fail(msg: Message) | Crash(error: PyError)

  const EXCLUSIVE_MSG := "delete and refresh are exclusive"

  /** One run of the module: what it reports, the commands issued, the
      runner's answers and the sleeps, in order, and `c_results` once it
      is over. */
  datatype ModuleRun = ModuleRun(outcome: Outcome, issued: seq<string>, answers: seq<Record>, sleeps: nat, results: Trace)

  /** The action `main` picks once the key's presence is known, unless the
      key is missing in check mode. */
  datatype Action = NoAction | RefreshKey | DeleteKey | ReceiveKey

  /** The `if`/`elif` chain of `main`. Outside check mode a missing key is
      always received, whatever the flags, `delete` included; in check
      mode nothing runs; refresh wins over delete; a present key with
      neither flag is left alone. */
  function Decide(present: bool, refresh: bool, delete: bool, checkMode: bool): (a: Action)
    ensures a == ReceiveKey <==> !present && !checkMode
    ensures a == RefreshKey <==> present && refresh && !checkMode
    ensures a == DeleteKey <==> present && delete && !refresh && !checkMode
    ensures a == NoAction <==> checkMode || (present && !refresh && !delete)
  {
    if present && refresh && !checkMode then RefreshKey
    else if present && delete && !checkMode then DeleteKey
    else if !present && !checkMode then ReceiveKey
    else NoAction
  }

  /** `main` after the check: `action` is decided, `c_results` is `log1`
      and the runner's next answer is `respond(base)`. `rc` stays `None`
      when no action runs, and `changed` is whether `rc == 0`; only a
      receive that did not return 0 fails. */
  function Act(cmds: map<Command, string>, urls: seq<string>, p: Params, respond: nat -> Record, base: nat,
               log1: Trace, action: Action): ModuleRun
    requires cmds.Keys == ALL_COMMANDS && Recv in log1
  {
    match action
    case NoAction => ModuleRun(Exit(false, log1), [], [], 0, log1)
    case DeleteKey =>
      (match Issue(cmds[Delete], p.keyId)
       case None => ModuleRun(Crash(FormatError), [], [], 0, log1)
       case Some(line) =>
         var del := respond(base);
         var log2 := Logged(log1, Delete, del);
         ModuleRun(Exit(del.rc == 0, log2), [line], [del], 0, log2))
    case RefreshKey =>
      var r := Repeat(cmds[Refresh], p.keyId, urls, p.tries, respond, base);
      var log2 := LoggedAll(log1, Refresh, r.answers);
      ModuleRun(match r.reply
                case Raise(e) => Crash(e)
                case Ok(rc) => Exit(rc == Some(0), log2),
                r.issued, r.answers, r.sleeps, log2)
    case ReceiveKey =>
      var r := Repeat(cmds[Recv], p.keyId, urls, p.tries, respond, base);
      var log2 := LoggedAll(log1, Recv, r.answers);
      ModuleRun(match r.reply
                case Raise(e) => Crash(e)
                case Ok(rc) => if rc != Some(0) then Fail(Results(log2[Recv])) else Exit(true, log2),
                r.issued, r.answers, r.sleeps, log2)
  }

  /** `main` once the check has answered: a missing key in check mode is
      reported as a change without running anything, otherwise the action
      decided runs. */
  function AfterCheck(cmds: map<Command, string>, urls: seq<string>, p: Params, checkMode: bool,
                      respond: nat -> Record, base: nat, log1: Trace, present: bool): ModuleRun
    requires cmds.Keys == ALL_COMMANDS && Recv in log1
  {
    if !present && checkMode then ModuleRun(Exit(true, log1), [], [], 0, log1)
    else Act(cmds, urls, p, respond, base, log1, Decide(present, p.refresh, p.delete, checkMode))
  }

  /** The module run with options `p` and binary `bp`, in check mode or
      not, against a runner whose next answers are `respond(base)`,
      `respond(base + 1)`, ... */
  function Module(p: Params, bp: string, checkMode: bool, respond: nat -> Record, base: nat): ModuleRun {
    if p.refresh && p.delete then ModuleRun(Fail(Text(EXCLUSIVE_MSG)), [], [], 0, NO_RESULTS)
    else
      var cmds := Commands(bp);
      match Issue(cmds[Check], p.keyId)
      case None => ModuleRun(Crash(FormatError), [], [], 0, NO_RESULTS)
      case Some(line) =>
        var check := respond(base);
        var m := AfterCheck(cmds, Normalise(p.servers), p, checkMode, respond, base + 1,
                            Logged(NO_RESULTS, Check, check), check.rc == 0);
        ModuleRun(m.outcome, [line] + m.issued, [check] + m.answers, m.sleeps, m.results)
  }

  /** The check's command line, when the binary path holds no `%`. */
  lemma CheckLine(p: Params, bp: string)
    requires NoPercent(bp)
    ensures Issue(Commands(bp)[Check], p.keyId) == Some(Line(Check, bp, p.keyId, ""))
  {
    StageTwo(Check, bp, p.keyId, "");
  }

  /** After the check, one answer per command issued, and at most one
      sleep per answer. */
  lemma ActShape(cmds: map<Command, string>, urls: seq<string>, p: Params, respond: nat -> Record, base: nat,
                 log1: Trace, action: Action)
    requires cmds.Keys == ALL_COMMANDS && Recv in log1
    ensures var m := Act(cmds, urls, p, respond, base, log1, action);
      |m.issued| == |m.answers| && m.sleeps <= |m.answers|
      && (forall i :: 0 <= i < |m.answers| ==> m.answers[i] == respond(base + i))
      && (action == NoAction ==> m.issued == [])
  {
    match action
    case NoAction =>
    case DeleteKey =>
    case RefreshKey =>
      RepeatFacts(cmds[Refresh], p.keyId, urls, p.tries, respond, base);
    case ReceiveKey =>
      RepeatFacts(cmds[Recv], p.keyId, urls, p.tries, respond, base);
  }

  /** Unless the flags are exclusive, `check` runs first, with the key id,
      and decides presence by its rc; every later answer belongs to one
      later command, taken in order. */
  lemma CheckFirst(p: Params, bp: string, checkMode: bool, respond: nat -> Record, base: nat)
    requires !(p.refresh && p.delete) && NoPercent(bp)
    ensures var m := Module(p, bp, checkMode, respond, base);
      && m.issued != [] && m.issued[0] == Line(Check, bp, p.keyId, "")
      && |m.issued| == |m.answers| && m.sleeps < |m.answers|
      && forall i :: 0 <= i < |m.answers| ==> m.answers[i] == respond(base + i)
  {
    var m := Module(p, bp, checkMode, respond, base);
    var check := respond(base);
    var log1 := Logged(NO_RESULTS, Check, check);
    var action := Decide(check.rc == 0, p.refresh, p.delete, checkMode);
    var a := AfterCheck(Commands(bp), Normalise(p.servers), p, checkMode, respond, base + 1, log1, check.rc == 0);
    CheckLine(p, bp);
    NoResultsFacts(check);
    ActShape(Commands(bp), Normalise(p.servers), p, respond, base + 1, log1, action);
    assert m.answers == [check] + a.answers;
    forall i | 0 < i < |m.answers|
      ensures m.answers[i] == respond(base + i)
    {
      assert m.answers[i] == a.answers[i - 1];
    }
  }

  /** Asking for both `refresh` and `delete` fails before any gpg command
      runs. */
  lemma ExclusiveFlags(p: Params, bp: string, checkMode: bool, respond: nat -> Record, base: nat)
    requires p.refresh && p.delete
    ensures var m := Module(p, bp, checkMode, respond, base);
      m.outcome == Fail(Text(EXCLUSIVE_MSG)) && m.issued == []
  {
  }

  /** In check mode only `check` runs: a missing key reports `changed`
      True, a present one `changed` False, with the check recorded. */
  lemma CheckMode(p: Params, bp: string, respond: nat -> Record, base: nat)
    requires !(p.refresh && p.delete) && NoPercent(bp)
    ensures var m := Module(p, bp, true, respond, base);
      && m.issued == [Line(Check, bp, p.keyId, "")] && m.answers == [respond(base)] && m.sleeps == 0
      && m.outcome == Exit(respond(base).rc != 0, Logged(NO_RESULTS, Check, respond(base)))
  {
    CheckLine(p, bp);
  }

  /** After the check, an action that ends normally reports `changed`
      exactly when it ran a command and the last answer had rc 0. */
  lemma ActChanged(cmds: map<Command, string>, urls: seq<string>, p: Params, respond: nat -> Record, base: nat,
                   log1: Trace, action: Action)
    requires cmds.Keys == ALL_COMMANDS && Recv in log1
    ensures var m := Act(cmds, urls, p, respond, base, log1, action);
      m.outcome.Exit? ==> (m.outcome.changed <==> m.answers != [] && m.answers[|m.answers| - 1].rc == 0)
  {
    match action
    case NoAction =>
    case DeleteKey =>
    case RefreshKey =>
      RepeatFacts(cmds[Refresh], p.keyId, urls, p.tries, respond, base);
    case ReceiveKey =>
      RepeatFacts(cmds[Recv], p.keyId, urls, p.tries, respond, base);
  }

  /** Outside check mode, when the module exits normally, `changed` is
      whether an action ran after the check and its last answer was rc 0. */
  lemma ChangedIffZero(p: Params, bp: string, respond: nat -> Record, base: nat)
    ensures var m := Module(p, bp, false, respond, base);
      m.outcome.Exit? ==>
        (m.outcome.changed <==> |m.answers| > 1 && m.answers[|m.answers| - 1].rc == 0)
  {
    var m := Module(p, bp, false, respond, base);
    if !(p.refresh && p.delete) && Issue(Commands(bp)[Check], p.keyId).Some? {
      var check := respond(base);
      var log1 := Logged(NO_RESULTS, Check, check);
      var action := Decide(check.rc == 0, p.refresh, p.delete, false);
      var a := Act(Commands(bp), Normalise(p.servers), p, respond, base + 1, log1, action);
      NoResultsFacts(check);
      ActChanged(Commands(bp), Normalise(p.servers), p, respond, base + 1, log1, action);
      assert m.answers == [check] + a.answers;
    }
  }

  /** After the check, only a receive fails the run, once every attempt it
      made returned a non-zero rc, and it reports the `recv` section holding
      exactly those attempts. */
  lemma ActFails(cmds: map<Command, string>, urls: seq<string>, p: Params, respond: nat -> Record, base: nat,
                 log1: Trace, action: Action)
    requires cmds.Keys == ALL_COMMANDS && Recv in log1 && log1[Recv] == EMPTY_SECTION
    ensures var m := Act(cmds, urls, p, respond, base, log1, action);
      m.outcome.Fail? ==>
        && action == ReceiveKey && m.outcome.msg == Results(Section(m.answers, |m.answers|))
        && forall i :: 0 <= i < |m.answers| ==> m.answers[i].rc != 0
  {
    if action == ReceiveKey {
      var r := Repeat(cmds[Recv], p.keyId, urls, p.tries, respond, base);
      RepeatFacts(cmds[Recv], p.keyId, urls, p.tries, respond, base);
      LoggedAllFacts(log1, Recv, r.answers);
      assert [] + r.answers == r.answers;
    }
  }

  /** `c_results` when the module starts: one empty section per command. */
  lemma NoResultsFacts(check: Record)
    ensures NO_RESULTS.Keys == ALL_COMMANDS && Counted(NO_RESULTS)
    ensures var log1 := Logged(NO_RESULTS, Check, check);
      log1.Keys == ALL_COMMANDS && Counted(log1) && log1[Recv] == EMPTY_SECTION
  {
    LoggedFacts(NO_RESULTS, Check, check);
  }

  /** The run fails only for exclusive flags or for a receive that did not
      return 0, and then reports the `recv` section: every attempt it made,
      each one failed. A failed refresh or delete never fails the run. */
  lemma OnlyRecvFails(p: Params, bp: string, checkMode: bool, respond: nat -> Record, base: nat)
    ensures var m := Module(p, bp, checkMode, respond, base);
      m.outcome.Fail? ==>
        || (p.refresh && p.delete && m.outcome.msg == Text(EXCLUSIVE_MSG))
        || (&& !checkMode && respond(base).rc != 0 && m.answers != []
            && m.outcome.msg == Results(Section(m.answers[1..], |m.answers| - 1))
            && forall i :: 0 <= i < |m.answers| ==> m.answers[i].rc != 0)
  {
    var m := Module(p, bp, checkMode, respond, base);
    if m.outcome.Fail? && !(p.refresh && p.delete) {
      var cmds := Commands(bp);
      var check := respond(base);
      var log1 := Logged(NO_RESULTS, Check, check);
      var action := Decide(check.rc == 0, p.refresh, p.delete, checkMode);
      var a := Act(cmds, Normalise(p.servers), p, respond, base + 1, log1, action);
      NoResultsFacts(check);
      ActFails(cmds, Normalise(p.servers), p, respond, base + 1, log1, action);
      assert m.answers == [check] + a.answers;
      assert m.answers[1..] == a.answers;
    }
  }

  /** The `delete` flag on a missing key receives the key instead: the
      first command after the check is a `recv` from the first server. */
  lemma DeleteMissingReceives(p: Params, bp: string, respond: nat -> Record, base: nat)
    requires p.delete && !p.refresh && NoPercent(bp)
    requires respond(base).rc != 0 && p.tries > 0 && p.servers != []
    ensures var m := Module(p, bp, false, respond, base);
      |m.issued| > 1 && m.issued[1] == Line(Recv, bp, p.keyId, Normalise(p.servers)[0])
  {
    var cmds := Commands(bp);
    var urls := Normalise(p.servers);
    CheckLine(p, bp);
    StageTwo(Recv, bp, p.keyId, urls[0]);
    FillAt(cmds[Recv], urls[0], p.keyId);
    RepeatFacts(cmds[Recv], p.keyId, urls, p.tries, respond, base + 1);
    RoundsLength(p.tries, urls);
    RepeatOrder(cmds[Recv], p.keyId, urls, p.tries, respond, base + 1, 0, 0);
  }

  /** After the check, every action keeps each section of `c_results`
      counted and adds no section, whatever the outcome; `exit_json`
      reports `c_results` as it then stands, and a failure its `recv`
      section. */
  lemma ActCounted(cmds: map<Command, string>, urls: seq<string>, p: Params, respond: nat -> Record, base: nat,
                   log1: Trace, action: Action)
    requires cmds.Keys == ALL_COMMANDS && log1.Keys == ALL_COMMANDS && Counted(log1)
    ensures var o := Act(cmds, urls, p, respond, base, log1, action).outcome;
      o.Exit? ==> o.cResults.Keys == ALL_COMMANDS && Counted(o.cResults)
    ensures var m := Act(cmds, urls, p, respond, base, log1, action);
      && m.results.Keys == ALL_COMMANDS && Counted(m.results)
      && (m.outcome.Exit? ==> m.outcome.cResults == m.results)
      && (m.outcome.Fail? ==> m.outcome.msg == Results(m.results[Recv]))
  {
    match action
    case NoAction =>
    case DeleteKey =>
      LoggedFacts(log1, Delete, respond(base));
    case RefreshKey =>
      LoggedAllFacts(log1, Refresh, Repeat(cmds[Refresh], p.keyId, urls, p.tries, respond, base).answers);
    case ReceiveKey =>
      LoggedAllFacts(log1, Recv, Repeat(cmds[Recv], p.keyId, urls, p.tries, respond, base).answers);
  }

  /** Every section of the reported `c_results` keeps `num_tries` equal to
      the length of `tries`, and all four sections are there. */
  lemma ModuleCounted(p: Params, bp: string, checkMode: bool, respond: nat -> Record, base: nat)
    ensures var m := Module(p, bp, checkMode, respond, base);
      m.outcome.Exit? ==> m.outcome.cResults.Keys == ALL_COMMANDS && Counted(m.outcome.cResults)
  {
    var check := respond(base);
    NoResultsFacts(check);
    ActCounted(Commands(bp), Normalise(p.servers), p, respond, base + 1, Logged(NO_RESULTS, Check, check),
               Decide(check.rc == 0, p.refresh, p.delete, checkMode));
  }

  /** `c_results` at the end of every run, whatever its outcome, has the
      four sections, each counted; what `exit_json` reports is all of it,
      and what a failed receive reports is its `recv` section. */
  lemma ModuleReports(p: Params, bp: string, checkMode: bool, respond: nat -> Record, base: nat)
    ensures var m := Module(p, bp, checkMode, respond, base);
      && m.results.Keys == ALL_COMMANDS && Counted(m.results)
      && (m.outcome.Exit? ==> m.outcome.cResults == m.results)
      && (m.outcome.Fail? && m.outcome.msg.Results? ==> m.outcome.msg == Results(m.results[Recv]))
  {
    var check := respond(base);
    NoResultsFacts(check);
    ActCounted(Commands(bp), Normalise(p.servers), p, respond, base + 1, Logged(NO_RESULTS, Check, check),
               Decide(check.rc == 0, p.refresh, p.delete, checkMode));
  }

  /** Filling `commands` in `setup_creds`: an entry visited among the first
      `i` is prepared, the others still hold their template. */
  predicate SetupAt(m: map<Command, string>, i: int, bp: string) {
    m.Keys == ALL_COMMANDS && forall c :: c in m ==> m[c] == if Position(c) < i then Prepared(c, bp) else Template(c)
  }

  lemma SetupStep(m: map<Command, string>, i: nat, bp: string)
    requires i < |DICT_ORDER| && SetupAt(m, i, bp)
    ensures var c := DICT_ORDER[i];
      && Format(m[c], [Str(bp)]) == Some(Prepared(c, bp))
      && SetupAt(m[c := Prepared(c, bp)], i + 1, bp)
  {
    var c := DICT_ORDER[i];
    assert Position(c) == i;
    StageOne(c, bp);
  }

  /** Before the loop every entry holds its template. */
  lemma SetupStart(bp: string)
    ensures SetupAt(map[Check := CHECK_TEMPLATE, Delete := DELETE_TEMPLATE,
                        Refresh := REFRESH_TEMPLATE, Recv := RECV_TEMPLATE], 0, bp)
  {
  }

  /** After visiting every key, `commands` is fully prepared, and the
      sections built from its keys are the empty `c_results`. */
  lemma SetupDone(m: map<Command, string>, bp: string)
    requires SetupAt(m, |DICT_ORDER|, bp)
    ensures m == Commands(bp)
    ensures (map k | k in m :: EMPTY_SECTION) == NO_RESULTS
  {
  }

  // ---------------------------------------------------------------------
  // The object

  class GpgKeysMod {
    const runner: Runner
    const params: Params
    const binPath: string    // get_bin_path('gpg', True)
    var commands: map<Command, string>
    var cResults: Trace
    var urls: seq<string>
    var sleeps: nat          // calls of sleep(delay)

    /** `__init__`: copy the options, `setup_creds`, `set_urls`. */
    constructor (runner: Runner, params: Params, binPath: string)
      ensures this.runner == runner && this.params == params && this.binPath == binPath
      ensures commands == Commands(binPath) && cResults == NO_RESULTS
      ensures urls == Normalise(params.servers) && sleeps == 0
    {
      this.runner := runner;
      this.params := params;
      this.binPath := binPath;
      commands := map[];
      cResults := map[];
      urls := [];
      sleeps := 0;
      new;
      SetupCreds();
      SetUrls();
    }

    /** `set_urls`: the servers normalised to URLs. */
    method SetUrls()
      modifies this`urls
      ensures urls == Normalise(params.servers)
    {
      urls := Normalise(params.servers);
    }

    /** `setup_creds`: the templates with the binary filled in, and an
      empty section of `c_results` for each command. */
    method SetupCreds()
      modifies this`commands, this`cResults
      ensures commands == Commands(binPath) && cResults == NO_RESULTS
    {
      var cmds := map[Check := CHECK_TEMPLATE, Delete := DELETE_TEMPLATE,
                      Refresh := REFRESH_TEMPLATE, Recv := RECV_TEMPLATE];
      var bp := binPath;
      SetupStart(bp);
      var i := 0;
      while i < |DICT_ORDER|
        invariant 0 <= i <= |DICT_ORDER|
        invariant SetupAt(cmds, i, bp)
      {
        var c := DICT_ORDER[i];
        SetupStep(cmds, i, bp);
        var line := Format(cmds[c], [Str(bp)]);
        cmds := cmds[c := line.value];
        i := i + 1;
      }
      SetupDone(cmds, bp);
      commands := cmds;
      cResults := map k | k in commands :: EMPTY_SECTION;
    }

    /** `_to_c_results`: append the answer to the section of `sec`, then
      count it. */
    method ToCResults(sec: Command, res: Record)
      requires sec in cResults
      modifies this`cResults
      ensures cResults == Logged(old(cResults), sec, res)
    {
      cResults := cResults[sec := cResults[sec].(tries := cResults[sec].tries + [res])];
      cResults := cResults[sec := cResults[sec].(numTries := cResults[sec].numTries + 1)];
    }

    /** `execute_command`: run `cmd` with the key id filled in, record the
      answer and return its rc. */
    method ExecuteCommand(cmd: Command) returns (res: Result<int>)
      requires cmd in commands && cmd in cResults
      modifies this`cResults, runner
      ensures match Issue(commands[cmd], params.keyId)
        case None => res == Raise(FormatError) && runner.issued == old(runner.issued) && cResults == old(cResults)
        case Some(line) =>
          var rec := runner.respond(|old(runner.issued)|);
          && res == Ok(rec.rc) && runner.issued == old(runner.issued) + [line]
          && cResults == Logged(old(cResults), cmd, rec)
    {
      var line := Issue(commands[cmd], params.keyId);
      if line.None? {
        return Raise(FormatError);
      }
      var rec := runner.Run(line.value);
      ToCResults(cmd, rec);
      return Ok(rec.rc);
    }

    /** `repeat_command`: for each try, for each URL, run the command with
      that URL and the key id, record the answer and sleep; stop with 0 at
      the first `rc == 0`; fall off the end, returning nothing, when every
      attempt failed. */
    method RepeatCommand(cmd: Command) returns (res: Result<Option<int>>)
      requires cmd in commands && cmd in cResults
      modifies this`cResults, this`sleeps, runner
      ensures Returned(Repeat(commands[cmd], params.keyId, urls, params.tries, runner.respond, |old(runner.issued)|),
                       res, cmd, old(runner.issued), old(cResults), old(sleeps), runner.issued, cResults, sleeps)
    {
      ghost var template, grid := commands[cmd], Rounds(params.tries, urls);
      ghost var base := |runner.issued|;
      ghost var goal := Repeat(template, params.keyId, urls, params.tries, runner.respond, base);
      RepeatStart(template, params.keyId, urls, params.tries, runner.respond, base);
      res := RepeatLoop(cmd, template, grid, goal, base);
    }

    /** The two loops of `repeat_command`, run towards the whole run `goal`. */
    method RepeatLoop(cmd: Command, ghost template: string, ghost grid: seq<string>, ghost goal: Run, ghost base: nat)
      returns (res: Result<Option<int>>)
      requires cmd in commands && cmd in cResults && template == commands[cmd] && grid == Rounds(params.tries, urls)
      requires |runner.issued| == base
      requires goal == Preceded([], [], 0, Attempt(template, params.keyId, grid, runner.respond, base, 0))
      modifies this`cResults, this`sleeps, runner
      ensures Returned(goal, res, cmd, old(runner.issued), old(cResults), old(sleeps), runner.issued, cResults, sleeps)
    {
      ghost var log0, issued0, sleeps0 := cResults, runner.issued, sleeps;
      ghost var done: seq<string>, got: seq<Record> := [], [];
      var n := 0;
      ghost var v := 0;
      while n < params.tries
        invariant 0 <= n && (params.tries > 0 ==> n <= params.tries) && v == |Rounds(n, urls)|
        invariant cmd in cResults
        invariant Midway(goal, Attempt(template, params.keyId, grid, runner.respond, base, v),
                         done, got, v, cmd, issued0, log0, sleeps0, runner.issued, cResults, sleeps)
      {
        var stop;
        stop, res, done, got := TryRound(cmd, n, template, grid, goal, base, v, done, got, issued0, log0, sleeps0);
        if stop {
          return;
        }
        n, v := n + 1, v + |urls|;
      }
      assert Rounds(n, urls) == grid;
      RepeatEnd(template, params.keyId, grid, runner.respond, base, done, got);
      return Ok(None);
    }

    /** One pass of the outer loop: attempts `v` to `v + |urls| - 1`, one per
      server. */
    method TryRound(cmd: Command, n: int, ghost template: string, ghost grid: seq<string>, ghost goal: Run,
                    ghost base: nat, ghost v: nat,
                    ghost done: seq<string>, ghost got: seq<Record>,
                    ghost issued0: seq<string>, ghost log0: Trace, ghost sleeps0: nat)
      returns (stop: bool, res: Result<Option<int>>, ghost done': seq<string>, ghost got': seq<Record>)
      requires cmd in commands && cmd in cResults && template == commands[cmd] && grid == Rounds(params.tries, urls)
      requires |issued0| == base && 0 <= n < params.tries && v == |Rounds(n, urls)|
      requires Midway(goal, Attempt(template, params.keyId, grid, runner.respond, base, v),
                      done, got, v, cmd, issued0, log0, sleeps0, runner.issued, cResults, sleeps)
      modifies this`cResults, this`sleeps, runner
      ensures cmd in cResults
      ensures stop ==> Returned(goal, res, cmd, issued0, log0, sleeps0, runner.issued, cResults, sleeps)
      ensures !stop ==> Midway(goal, Attempt(template, params.keyId, grid, runner.respond, base, v + |urls|),
                               done', got', v + |urls|, cmd, issued0, log0, sleeps0, runner.issued, cResults, sleeps)
    {
      done', got' := done, got;
      ghost var w := v;
      var j := 0;
      while j < |urls|
        invariant 0 <= j <= |urls| && w == v + j
        invariant cmd in cResults
        invariant Midway(goal, Attempt(template, params.keyId, grid, runner.respond, base, w),
                         done', got', w, cmd, issued0, log0, sleeps0, runner.issued, cResults, sleeps)
      {
        RoundsNext(params.tries, urls, n, j);
        stop, res, done', got' := TryServer(cmd, urls[j], template, grid, goal, base, w, done', got', issued0, log0, sleeps0);
        if stop {
          return;
        }
        w, j := w + 1, j + 1;
      }
      return false, Ok(None), done', got';
    }

    /** One attempt, with the URL `u` of grid cell `v`. */
    method TryServer(cmd: Command, u: string, ghost template: string, ghost grid: seq<string>, ghost goal: Run,
                     ghost base: nat, ghost v: nat,
                     ghost done: seq<string>, ghost got: seq<Record>,
                     ghost issued0: seq<string>, ghost log0: Trace, ghost sleeps0: nat)
      returns (stop: bool, res: Result<Option<int>>, ghost done': seq<string>, ghost got': seq<Record>)
      requires cmd in commands && cmd in cResults && template == commands[cmd] && |issued0| == base
      requires v < |grid| && grid[v] == u
      requires Midway(goal, Attempt(template, params.keyId, grid, runner.respond, base, v),
                      done, got, v, cmd, issued0, log0, sleeps0, runner.issued, cResults, sleeps)
      modifies this`cResults, this`sleeps, runner
      ensures cmd in cResults
      ensures stop ==> Returned(goal, res, cmd, issued0, log0, sleeps0, runner.issued, cResults, sleeps)
      ensures !stop ==> Midway(goal, Attempt(template, params.keyId, grid, runner.respond, base, v + 1),
                               done', got', v + 1, cmd, issued0, log0, sleeps0, runner.issued, cResults, sleeps)
    {
      done', got' := done, got;
      assert Attempt(template, params.keyId, grid, runner.respond, base, v)
          == Step(template, params.keyId, grid, runner.respond, base, v);
      var line := Fill(commands[cmd], u, params.keyId);
      if line.None? {
        assert done + [] == done && got + [] == got;
        return true, Raise(FormatError), done', got';
      }
      var rec := runner.Run(line.value);
      ToCResults(cmd, rec);
      LoggedAllStep(log0, cmd, got, rec);
      sleeps := sleeps + 1;
      if rec.rc == 0 {
        return true, Ok(Some(0)), done', got';
      }
      PrecededTwice(done, got, v, [line.value], [rec], 1, Attempt(template, params.keyId, grid, runner.respond, base, v + 1));
      return false, Ok(None), done + [line.value], got + [rec];
    }

    /** `main` from the test of the check's answer on. */
    method Conclude(keyPresent: bool, checkMode: bool) returns (o: Outcome)
      requires commands.Keys == ALL_COMMANDS && Recv in cResults && Delete in cResults && Refresh in cResults
      modifies this`cResults, this`sleeps, runner
      ensures var m := AfterCheck(commands, urls, params, checkMode, runner.respond, |old(runner.issued)|,
                                  old(cResults), keyPresent);
        && o == m.outcome && runner.issued == old(runner.issued) + m.issued && sleeps == old(sleeps) + m.sleeps
        && cResults == m.results
    {
      if !keyPresent && checkMode {
        return Exit(true, cResults);
      }
      o := ActOn(Decide(keyPresent, params.refresh, params.delete, checkMode));
    }

    /** The `else` branch of `main`: run the action decided, keep its rc
      (`None` when none runs), fail when a receive did not return 0, and
      report `changed` as whether the rc is 0. */
    method ActOn(action: Action) returns (o: Outcome)
      requires commands.Keys == ALL_COMMANDS && Recv in cResults && Delete in cResults && Refresh in cResults
      modifies this`cResults, this`sleeps, runner
      ensures var m := Act(commands, urls, params, runner.respond, |old(runner.issued)|, old(cResults), action);
        && o == m.outcome && runner.issued == old(runner.issued) + m.issued && sleeps == old(sleeps) + m.sleeps
        && cResults == m.results
    {
      var rc: Option<int> := None;
      if action == RefreshKey {
        var r := RepeatCommand(Refresh);
        if r.Raise? {
          return Crash(r.error);
        }
        rc := r.value;
      } else if action == DeleteKey {
        var r := ExecuteCommand(Delete);
        if r.Raise? {
          return Crash(r.error);
        }
        rc := Some(r.value);
      } else if action == ReceiveKey {
        var r := RepeatCommand(Recv);
        if r.Raise? {
          return Crash(r.error);
        }
        rc := r.value;
        if rc != Some(0) {
          return Fail(Results(cResults[Recv]));
        }
      }
      return Exit(rc == Some(0), cResults);
    }
 }

  /** `main`: build the object, refuse exclusive flags, check for the key,
      report a missing key in check mode, otherwise act, and report. */
  method RunModule(runner: Runner, p: Params, binPath: string, checkMode: bool) returns (o: Outcome)
    modifies runner
    ensures var m := Module(p, binPath, checkMode, runner.respond, |old(runner.issued)|);
      o == m.outcome && runner.issued == old(runner.issued) + m.issued
  {
    var gkm := new GpgKeysMod(runner, p, binPath);
    if p.refresh && p.delete {
      return Fail(Text(EXCLUSIVE_MSG));
    }
    var check := gkm.ExecuteCommand(Check);
    if check.Raise? {
      return Crash(check.error);
    }
    var keyPresent := check.value == 0;
    o := gkm.Conclude(keyPresent, checkMode);
  }
}
