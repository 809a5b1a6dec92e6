/** The `gpg_import` module: imports a key by id from a list of key
    servers, refreshes it, or deletes it, retrying across servers, and
    reports every gpg call it made keyed by command. */
module GpgImport {
  import opened PyFormat
  import opened Gpg

  /** The `state` option; `refreshed` is an alias of `latest`. */
  datatype State = Present | Latest | Refreshed | Absent

  /** The module options the object copies onto itself. The float `delay`
      is left out: it only parameterises `sleep`. */
  datatype Params = Params(
    keyId: string,
    state: State,
    servers: seq<string>,
    tries: int,
    gpgTimeout: int)

  /** The rc of the dict `_repeat_command` returns when every try failed. */
  const SENTINEL_RC := 8888


  // The four command templates, split after each conversion only so that
  // the proofs below can walk them piece by piece.
  const CHECK_TEMPLATE := "%s %s" + " --list-keys " + "%s"
  const DELETE_TEMPLATE := "%s %s" + " --batch --yes --delete-keys " + "%s"
  const REFRESH_TEMPLATE :=
    "%s %s" + " --keyserver " + "%%s" + " --keyserver-options timeout=" + "%%d" + " --refresh-keys " + "%s"
  const RECV_TEMPLATE :=
    "%s %s" + " --keyserver " + "%%s" + " --keyserver-options timeout=" + "%%d" + " --recv-keys " + "%s"

  function Template(c: Command): string {
    match c
    case Check => CHECK_TEMPLATE
    case Delete => DELETE_TEMPLATE
    case Refresh => REFRESH_TEMPLATE
    case Recv => RECV_TEMPLATE
  }

  /** The gpg option that follows the binary: the dry-run flag in check
      mode, an empty string otherwise. */
  function DryRunFlag(checkMode: bool): string {
    if checkMode then "--dry-run" else ""
  }

  /** What `_setup_creds` leaves in `commands[c]`: binary, flag and key id
      filled in; `refresh` and `recv` keep a `%s` for the server and a `%d`
      for the timeout. */
  function Prepared(c: Command, bp: string, flag: string, key: string): string {
    match c
    case Check => bp + " " + flag + " --list-keys " + key
    case Delete => bp + " " + flag + " --batch --yes --delete-keys " + key
    case Refresh =>
      bp + " " + flag + " --keyserver " + "%s" + " --keyserver-options timeout=" + "%d" + " --refresh-keys " + key
    case Recv =>
      bp + " " + flag + " --keyserver " + "%s" + " --keyserver-options timeout=" + "%d" + " --recv-keys " + key
  }

  /** The command line gpg is run with for `c`, once server and timeout
      are filled in. */
  function Line(c: Command, bp: string, flag: string, key: string, url: string, timeout: int): string {
    match c
    case Check => Prepared(Check, bp, flag, key)
    case Delete => Prepared(Delete, bp, flag, key)
    case Refresh =>
      bp + " " + flag + " --keyserver " + url + " --keyserver-options timeout=" + Decimal(timeout) + " --refresh-keys " + key
    case Recv =>
      bp + " " + flag + " --keyserver " + url + " --keyserver-options timeout=" + Decimal(timeout) + " --recv-keys " + key
  }

  /** The `commands` dict after `_setup_creds`. */
  function Commands(bp: string, checkMode: bool, key: string): (m: map<Command, string>)
    ensures m.Keys == ALL_COMMANDS
  {
    map c | c in ALL_COMMANDS :: Prepared(c, bp, DryRunFlag(checkMode), key)
  }

  // Proof helpers for stage one. ShapeSplit, SplitEscapes and JoinEscapes
  // only regroup string concatenations, so that the `%` lemmas below see
  // each conversion at the head of a piece; they state nothing about the
  // module.

  /** Proof helper: regroups a stage-one template and its result around
      the conversions. */
  lemma ShapeSplit(a: string, b: string, c: string, bp: string, flag: string, key: string)
    ensures NoPercent(" ")
    ensures "%s %s" + a + "%s" == "%s" + (" " + "%s" + (a + "%s" + ""))
    ensures "%s %s" + a + "%%" + b + "%%" + c + "%s" == "%s" + (" " + "%s" + (a + "%%" + (b + "%%" + (c + "%s" + ""))))
    ensures [Str(bp), Str(flag), Str(key)] == [Str(bp)] + ([Str(flag)] + ([Str(key)] + []))
    ensures bp + (" " + flag + (a + key + "")) == bp + " " + flag + a + key
    ensures bp + (" " + flag + (a + "%" + (b + "%" + (c + key + "")))) == bp + " " + flag + a + "%" + b + "%" + c + key
  {
  }

  lemma ShapeClosed(verb: string, bp: string, flag: string, key: string)
    requires NoPercent(verb)
    ensures Format("%s %s" + verb + "%s", [Str(bp), Str(flag), Str(key)]) == Some(bp + " " + flag + verb + key)
  {
    ShapeSplit(verb, "", "", bp, flag, key);
    FormatStr(" " + "%s" + (verb + "%s" + ""), Str(bp), [Str(flag), Str(key)]);
    TextStr(" ", verb + "%s" + "", flag, [Str(key)]);
    TextStr(verb, "", key, []);
    Closed("", []);
  }

  lemma ShapeOpen(a: string, b: string, c: string, bp: string, flag: string, key: string)
    requires NoPercent(a) && NoPercent(b) && NoPercent(c)
    ensures Format("%s %s" + a + "%%" + b + "%%" + c + "%s", [Str(bp), Str(flag), Str(key)])
         == Some(bp + " " + flag + a + "%" + b + "%" + c + key)
  {
    ShapeSplit(a, b, c, bp, flag, key);
    FormatStr(" " + "%s" + (a + "%%" + (b + "%%" + (c + "%s" + ""))), Str(bp), [Str(flag), Str(key)]);
    TextStr(" ", a + "%%" + (b + "%%" + (c + "%s" + "")), flag, [Str(key)]);
    TextEscape(a, b + "%%" + (c + "%s" + ""), [Str(key)]);
    TextEscape(b, c + "%s" + "", [Str(key)]);
    TextStr(c, "", key, []);
    Closed("", []);
  }

  /** Proof helper: splits each `%%s` / `%%d` of an open template into the
      escape and the text after it. */
  lemma SplitEscapes(a: string, mid: string, verb: string)
    ensures "%s %s" + a + "%%s" + mid + "%%d" + verb + "%s" == "%s %s" + a + "%%" + ("s" + mid) + "%%" + ("d" + verb) + "%s"
  {
  }

  /** Proof helper: the inverse regrouping of SplitEscapes on the result. */
  lemma JoinEscapes(x: string, a: string, mid: string, verb: string, key: string)
    ensures x + a + "%" + ("s" + mid) + "%" + ("d" + verb) + key == x + a + "%s" + mid + "%d" + verb + key
  {
  }

  lemma OpenTemplate(verb: string, bp: string, flag: string, key: string)
    requires NoPercent(verb)
    ensures Format("%s %s" + " --keyserver " + "%%s" + " --keyserver-options timeout=" + "%%d" + verb + "%s",
                   [Str(bp), Str(flag), Str(key)])
         == Some(bp + " " + flag + " --keyserver " + "%s" + " --keyserver-options timeout=" + "%d" + verb + key)
  {
    var a, mid := " --keyserver ", " --keyserver-options timeout=";
    SplitEscapes(a, mid, verb);
    ShapeOpen(a, "s" + mid, "d" + verb, bp, flag, key);
    JoinEscapes(bp + " " + flag, a, mid, verb, key);
  }

  /** Stage one: `_setup_creds` fills binary, dry-run flag and key id into
      every template, and this never raises. */
  lemma StageOne(c: Command, bp: string, flag: string, key: string)
    ensures Format(Template(c), [Str(bp), Str(flag), Str(key)]) == Some(Prepared(c, bp, flag, key))
  {
    match c
    case Check => ShapeClosed(" --list-keys ", bp, flag, key);
    case Delete => ShapeClosed(" --batch --yes --delete-keys ", bp, flag, key);
    case Refresh => OpenTemplate(" --refresh-keys ", bp, flag, key);
    case Recv => OpenTemplate(" --recv-keys ", bp, flag, key);
  }

  /** `commands[cmd] % (url, gpg_timeout)`. */
  function Fill(template: string, url: string, timeout: int): Option<string> {
    Format(template, [Str(url), Int(timeout)])
  }

  /** Stage two: `refresh` and `recv` take exactly the server and the
      timeout; `check` and `delete` have no open slot and are run as they
      are. This holds when binary path, flag and key id hold no `%`. */
  lemma StageTwo(c: Command, bp: string, flag: string, key: string, url: string, timeout: int)
    requires NoPercent(bp) && NoPercent(flag) && NoPercent(key)
    ensures c == Refresh || c == Recv ==>
      Fill(Prepared(c, bp, flag, key), url, timeout) == Some(Line(c, bp, flag, key, url, timeout))
    ensures c == Check || c == Delete ==>
      NoPercent(Prepared(c, bp, flag, key)) && Fill(Prepared(c, bp, flag, key), url, timeout) == None
  {
    match c
    case Check =>
      Closed(Prepared(c, bp, flag, key), [Str(url), Int(timeout)]);
    case Delete =>
      Closed(Prepared(c, bp, flag, key), [Str(url), Int(timeout)]);
    case Refresh => OpenLine(" --refresh-keys ", bp, flag, key, url, timeout);
    case Recv => OpenLine(" --recv-keys ", bp, flag, key, url, timeout);
  }

  /** Stage two of a prepared line `head %s mid %d tail`. */
  lemma SlotsOpen(head: string, mid: string, tail: string, url: string, timeout: int)
    requires NoPercent(head) && NoPercent(mid)
    ensures Format(head + "%s" + mid + "%d" + tail, [Str(url), Int(timeout)])
         == Prepend(head + url + mid + Decimal(timeout), Format(tail, []))
  {
    var rest := mid + "%d" + tail;
    assert head + "%s" + mid + "%d" + tail == head + "%s" + rest;
    assert [Str(url), Int(timeout)] == [Str(url)] + [Int(timeout)];
    TextStr(head, rest, url, [Int(timeout)]);
    assert [Int(timeout)] == [Int(timeout)] + [];
    TextInt(mid, tail, timeout, []);
    PrependTwice(head + url, mid + Decimal(timeout), Format(tail, []));
    assert head + url + (mid + Decimal(timeout)) == head + url + mid + Decimal(timeout);
  }

  lemma SlotsFilled(head: string, mid: string, tail: string, url: string, timeout: int)
    requires NoPercent(head) && NoPercent(mid) && NoPercent(tail)
    ensures Format(head + "%s" + mid + "%d" + tail, [Str(url), Int(timeout)])
         == Some(head + url + mid + Decimal(timeout) + tail)
  {
    SlotsOpen(head, mid, tail, url, timeout);
    Closed(tail, []);
  }

  lemma SlotsFilledKey(head: string, mid: string, verb: string, key: string, url: string, timeout: int)
    requires NoPercent(head) && NoPercent(mid) && NoPercent(verb) && NoPercent(key)
    ensures Format(head + "%s" + mid + "%d" + verb + key, [Str(url), Int(timeout)])
         == Some(head + url + mid + Decimal(timeout) + verb + key)
  {
    assert head + "%s" + mid + "%d" + verb + key == head + "%s" + mid + "%d" + (verb + key);
    assert head + url + mid + Decimal(timeout) + verb + key == head + url + mid + Decimal(timeout) + (verb + key);
    SlotsFilled(head, mid, verb + key, url, timeout);
  }

  lemma OpenLine(verb: string, bp: string, flag: string, key: string, url: string, timeout: int)
    requires NoPercent(bp) && NoPercent(flag) && NoPercent(key) && NoPercent(verb)
    ensures Format(bp + " " + flag + " --keyserver " + "%s" + " --keyserver-options timeout=" + "%d" + verb + key,
                   [Str(url), Int(timeout)])
         == Some(bp + " " + flag + " --keyserver " + url + " --keyserver-options timeout=" + Decimal(timeout) + verb + key)
  {
    HeadNoPercent(bp, flag);
    SlotsFilledKey(bp + " " + flag + " --keyserver ", " --keyserver-options timeout=", verb, key, url, timeout);
  }

  /** Proof helper: the fixed text around the server slot holds no `%`. */
  lemma HeadNoPercent(bp: string, flag: string)
    requires NoPercent(bp) && NoPercent(flag)
    ensures NoPercent(bp + " " + flag + " --keyserver ") && NoPercent(" --keyserver-options timeout=")
  {
  }

  /** Stage two reads the key id a second time. The line
      `_repeat_command` runs is the key id as `%` with no arguments renders
      it (each `%%` becomes `%`) after the filled-in prefix, and stage two
      raises exactly when that rendering raises: a key id `%`, `%s` or
      `%d` makes `_repeat_command` raise instead of running gpg. */
  lemma KeyFormattedAgain(c: Command, bp: string, flag: string, key: string, url: string, timeout: int)
    requires c == Refresh || c == Recv
    requires NoPercent(bp) && NoPercent(flag)
    ensures Fill(Prepared(c, bp, flag, key), url, timeout) == Prepend(Line(c, bp, flag, "", url, timeout), Format(key, []))
    ensures Fill(Prepared(c, bp, flag, key), url, timeout).Some? <==> Format(key, []).Some?
  {
    var verb := if c == Refresh then " --refresh-keys " else " --recv-keys ";
    var head, mid := bp + " " + flag + " --keyserver ", " --keyserver-options timeout=";
    assert Prepared(c, bp, flag, key) == head + "%s" + mid + "%d" + (verb + key);
    SlotsOpen(head, mid, verb + key, url, timeout);
    FormatText(verb, key, []);
    PrependTwice(head + url + mid + Decimal(timeout), verb, Format(key, []));
    assert Line(c, bp, flag, "", url, timeout) == head + url + mid + Decimal(timeout) + verb;
  }

  // ---------------------------------------------------------------------
  // The "unchanged" marker: re.search('gpg:\s+unchanged: 1\n', stderr)

  /** Python's `\s` on str: the characters for which `str.isspace` holds. */
  predicate IsSpace(ch: char) {
    ch == ' ' || ('\t' <= ch <= '\r') || ('\U{1C}' <= ch <= '\U{1F}') || ch == '\U{85}' || ch == '\U{A0}'
    || ch == '\U{1680}' || ('\U{2000}' <= ch <= '\U{200A}') || ch == '\U{2028}' || ch == '\U{2029}'
    || ch == '\U{202F}' || ch == '\U{205F}' || ch == '\U{3000}'
  }

  const MARKER_HEAD := "gpg:"
  const MARKER_TAIL := "unchanged: 1\n"

  /** The pattern matches `s[i..j + |MARKER_TAIL|]`, its `\s+` covering
      `s[i + 4..j]`. */
  predicate MarkerAt(s: string, i: int, j: int) {
    0 <= i && i + 4 < j && j + 13 <= |s|
    && s[i..i + 4] == MARKER_HEAD
    && (forall k :: i + 4 <= k < j ==> IsSpace(s[k]))
    && s[j..j + 13] == MARKER_TAIL
  }

  /** The search succeeds somewhere in `s`. */
  ghost predicate HasMarker(s: string) {
    exists i, j :: MarkerAt(s, i, j)
  }

  /** End of the longest run of whitespace in `s` that starts at `k`. */
  function SpaceRun(s: string, k: nat): (e: nat)
    requires k <= |s|
    ensures k <= e <= |s|
    ensures forall m :: k <= m < e ==> IsSpace(s[m])
    ensures e < |s| ==> !IsSpace(s[e])
    decreases |s| - k
  {
    if k == |s| || !IsSpace(s[k]) then k else SpaceRun(s, k + 1)
  }

  /** One attempt of the pattern at `i`: `\s+` is greedy, and since the
      tail starts with a letter, the longest run is the only one that can
      be followed by it. */
  function MatchAt(s: string, i: nat): (b: bool)
    ensures b <==> exists j :: MarkerAt(s, i, j)
  {
    if i + 4 <= |s| && s[i..i + 4] == MARKER_HEAD then
      var e := SpaceRun(s, i + 4);
      var found := e > i + 4 && e + 13 <= |s| && s[e..e + 13] == MARKER_TAIL;
      assert found ==> MarkerAt(s, i, e);
      assert (exists j :: MarkerAt(s, i, j)) ==> found by {
        if j :| MarkerAt(s, i, j) {
          assert s[j] == MARKER_TAIL[0];
        }
      }
      found
    else
      false
  }

  /** The search from position `i` on. */
  function SearchFrom(s: string, i: nat): (b: bool)
    requires i <= |s|
    ensures b <==> exists a, j :: i <= a && MarkerAt(s, a, j)
    decreases |s| - i
  {
    if i == |s| then
      assert forall a, j :: i <= a && MarkerAt(s, a, j) ==> false;
      false
    else if MatchAt(s, i) then
      true
    else
      var rest := SearchFrom(s, i + 1);
      assert (exists a, j :: i <= a && MarkerAt(s, a, j)) ==> rest by {
        if a, j :| i <= a && MarkerAt(s, a, j) {
          assert a != i;
        }
      }
      rest
  }

  /** `re.search('gpg:\s+unchanged: 1\n', stderr) is not None`. */
  function ReportsUnchanged(stderr: string): (b: bool)
    ensures b <==> HasMarker(stderr)
  {
    SearchFrom(stderr, 0)
  }

  // ---------------------------------------------------------------------
  // The decision table of `_execute_task`

  datatype Action = NoAction | DeleteKey | RefreshKey | ReceiveKey

  /** Whether `state` asks for the key to be in the keyring. */
  predicate Wanted(state: State) {
    state != Absent
  }

  /** Whether the key is in the keyring after `a` succeeded. */
  function After(a: Action, present: bool): bool {
    match a
    case NoAction => present
    case DeleteKey => false
    case RefreshKey => true
    case ReceiveKey => true
  }

  /** The branch `_execute_task` takes. Every combination picks exactly
      one action; once it succeeds the key's presence is the one `state`
      asks for, and nothing is done only when presence already matches and
      no refresh is asked for. */
  function Decide(present: bool, state: State): (a: Action)
    ensures After(a, present) == Wanted(state)
    ensures a == NoAction <==> present == Wanted(state) && state != Latest && state != Refreshed
    ensures a == RefreshKey <==> present && (state == Latest || state == Refreshed)
  {
    if present && state == Absent then DeleteKey
    else if present && state in {Latest, Refreshed} then RefreshKey
    else if !present && state in {Present, Latest, Refreshed} then ReceiveKey
    else NoAction
  }

  // ---------------------------------------------------------------------
  // `_repeat_command`

  /** What `_repeat_command` returns: the dict of the successful attempt,
      or `{'rc': 8888}`, which has no `stdout` or `stderr` key. */
  datatype Reply = Attempted(rec: Record) | RcOnly(rc: int) {
    function Rc(): int {
      match this
      case Attempted(rec) => rec.rc
      case RcOnly(rc) => rc
    }
  }

  /** Stage two succeeds for some URL. */
  predicate Fillable(template: string, timeout: int) {
    Fill(template, "", timeout).Some?
  }

  /** Whether stage two raises does not depend on the URL. */
  lemma FillAny(template: string, timeout: int)
    ensures forall url :: Fill(template, url, timeout).Some? == Fillable(template, timeout)
  {
    forall url ensures Fill(template, url, timeout).Some? == Fillable(template, timeout) {
      FormatKinds(template, [Str(url), Int(timeout)], [Str(""), Int(timeout)]);
    }
  }

  lemma FillAt(template: string, url: string, timeout: int)
    ensures Fill(template, url, timeout).Some? == Fillable(template, timeout)
  {
    FormatKinds(template, [Str(url), Int(timeout)], [Str(""), Int(timeout)]);
  }

  /** The command lines for the URLs `us`, in order. */
  function FillAll(template: string, us: seq<string>, timeout: int): (cs: seq<string>)
    requires Fillable(template, timeout)
    ensures |cs| == |us|
    ensures forall i :: 0 <= i < |us| ==> Fill(template, us[i], timeout) == Some(cs[i])
  {
    FillAny(template, timeout);
    seq(|us|, i requires 0 <= i < |us| => Fill(template, us[i], timeout).value)
  }

  /** One run of `_repeat_command`: its reply, the commands issued, the
      runner's answers (all appended to the trace) and the sleeps. */
  type Run = RepeatRun<Result<Reply>>

  /** The loop of `_repeat_command` from attempt number `v` on, over the
      URLs `grid` in the order it visits them; attempt `v` is answered by
      `respond(base + v)`. Formatting raises, a success returns, a failure
      sleeps and goes on; past the last attempt comes `{'rc': 8888}`. */
  function Attempt(template: string, timeout: int, grid: seq<string>, respond: nat -> Record, base: nat, v: nat)
    : Run
    decreases |grid| - v, 1
  {
    if v >= |grid| then RepeatRun(Ok(RcOnly(SENTINEL_RC)), [], [], 0)
    else Step(template, timeout, grid, respond, base, v)
  }

  /** Attempt `v` when there is one: formatting raises, a success returns,
      a failure sleeps and goes on with attempt `v + 1`. */
  function Step(template: string, timeout: int, grid: seq<string>, respond: nat -> Record, base: nat, v: nat)
    : Run
    requires v < |grid|
    decreases |grid| - v, 0
  {
    match Fill(template, grid[v], timeout)
    case None => RepeatRun(Raise(FormatError), [], [], 0)
    case Some(line) =>
      var rec := respond(base + v);
      if rec.rc == 0 then RepeatRun(Ok(Attempted(rec)), [line], [rec], 0)
      else Preceded([line], [rec], 1, Attempt(template, timeout, grid, respond, base, v + 1))
  }

  /** `_repeat_command` when the runner's next answers are
      `respond(base)`, `respond(base + 1)`, ... */
  function Repeat(template: string, timeout: int, urls: seq<string>, tries: int, respond: nat -> Record, base: nat)
    : Run
  {
    Attempt(template, timeout, Rounds(tries, urls), respond, base, 0)
  }

  /** The same run in closed form over a grid of URLs: nothing for an empty
      grid; a raise when the template takes no URL and timeout; otherwise
      the answers up to the first success, one command line per answer,
      and one sleep per failure. */
  function RepeatSpec(template: string, timeout: int, grid: seq<string>, respond: nat -> Record, base: nat)
    : Run
  {
    if grid == [] then
      RepeatRun(Ok(RcOnly(SENTINEL_RC)), [], [], 0)
    else if !Fillable(template, timeout) then
      RepeatRun(Raise(FormatError), [], [], 0)
    else
      RunOf(template, timeout, grid, Answers(respond, base, |grid|))
  }

  /** The closed form once the answers `all` to the grid are known. */
  function RunOf(template: string, timeout: int, grid: seq<string>, all: seq<Record>): Run
    requires Fillable(template, timeout) && |all| == |grid|
  {
    RetryFacts(all);
    var rt := RetrySpec(all);
    var n := |rt.answers|;
    RepeatRun(
      if rt.succeeded then Ok(Attempted(rt.answers[n - 1])) else Ok(RcOnly(SENTINEL_RC)),
      FillAll(template, grid[..n], timeout),
      rt.answers,
      if rt.succeeded then n - 1 else n)
  }

  /** The loop, attempt by attempt, agrees with the closed form on what
      remains of the grid. */
  lemma {:induction false} AttemptSpec(template: string, timeout: int, grid: seq<string>, respond: nat -> Record,
                                       base: nat, v: nat)
    requires v <= |grid|
    ensures Attempt(template, timeout, grid, respond, base, v) == RepeatSpec(template, timeout, grid[v..], respond, base + v)
    decreases |grid| - v
  {
    if v < |grid| {
      var g := grid[v..];
      assert g != [] && g[0] == grid[v] && g[1..] == grid[v + 1..];
      assert Attempt(template, timeout, grid, respond, base, v) == Step(template, timeout, grid, respond, base, v);
      var rec := respond(base + v);
      match Fill(template, grid[v], timeout)
      case None =>
        RepeatSpecRaise(template, timeout, g, respond, base + v);
      case Some(line) =>
        if rec.rc == 0 {
          RepeatSpecFirst(template, timeout, g, respond, base + v, line);
        } else {
          AttemptSpec(template, timeout, grid, respond, base, v + 1);
          RepeatSpecCons(template, timeout, g, respond, base + v, line);
        }
    }
  }

  /** The closed form raises at once when the first URL cannot be filled
      in. */
  lemma RepeatSpecRaise(template: string, timeout: int, g: seq<string>, respond: nat -> Record, b: nat)
    requires g != [] && Fill(template, g[0], timeout).None?
    ensures RepeatSpec(template, timeout, g, respond, b) == RepeatRun(Raise(FormatError), [], [], 0)
  {
    FillAt(template, g[0], timeout);
  }

  /** The closed form stops at a first answer that succeeds. */
  lemma RepeatSpecFirst(template: string, timeout: int, g: seq<string>, respond: nat -> Record, b: nat, line: string)
    requires g != [] && Fill(template, g[0], timeout) == Some(line) && respond(b).rc == 0
    ensures RepeatSpec(template, timeout, g, respond, b) == RepeatRun(Ok(Attempted(respond(b))), [line], [respond(b)], 0)
  {
    FillAt(template, g[0], timeout);
    var all := Answers(respond, b, |g|);
    assert all[0] == respond(b);
    RetryAt(all, 0);
    assert g[..1] == [g[0]];
  }

  /** The closed form after a first answer that failed: that attempt,
      one sleep, then the closed form on the rest of the grid. */
  lemma RepeatSpecCons(template: string, timeout: int, g: seq<string>, respond: nat -> Record, b: nat, line: string)
    requires g != [] && Fill(template, g[0], timeout) == Some(line) && respond(b).rc != 0
    ensures RepeatSpec(template, timeout, g, respond, b)
         == Preceded([line], [respond(b)], 1, RepeatSpec(template, timeout, g[1..], respond, b + 1))
  {
    FillAt(template, g[0], timeout);
    AnswersTail(respond, b, |g|);
    RunOfCons(template, timeout, g, Answers(respond, b, |g|), line);
    if g[1..] == [] {
      RunOfEmpty(template, timeout);
    }
  }

  lemma RunOfCons(template: string, timeout: int, g: seq<string>, all: seq<Record>, line: string)
    requires Fillable(template, timeout) && |all| == |g|
    requires g != [] && Fill(template, g[0], timeout) == Some(line) && all[0].rc != 0
    ensures RunOf(template, timeout, g, all) == Preceded([line], [all[0]], 1, RunOf(template, timeout, g[1..], all[1..]))
  {
    RetryCons(all);
    RetryFacts(all[1..]);
    FillAllCons(template, timeout, g, |RetrySpec(all[1..]).answers|, line);
  }

  lemma RunOfEmpty(template: string, timeout: int)
    requires Fillable(template, timeout)
    ensures RunOf(template, timeout, [], []) == RepeatRun(Ok(RcOnly(SENTINEL_RC)), [], [], 0)
  {
    assert RetrySpec([]) == Retry([], false);
  }

  /** The answers after the first are those from the next position on. */
  lemma AnswersTail(respond: nat -> Record, b: nat, n: nat)
    requires n > 0
    ensures Answers(respond, b, n)[0] == respond(b)
    ensures Answers(respond, b, n)[1..] == Answers(respond, b + 1, n - 1)
  {
  }

  /** The command lines for a prefix of the grid: the first URL's, then
      the rest's. */
  lemma FillAllCons(template: string, timeout: int, g: seq<string>, m: nat, line: string)
    requires m < |g| && Fillable(template, timeout) && Fill(template, g[0], timeout) == Some(line)
    ensures FillAll(template, g[..m + 1], timeout) == [line] + FillAll(template, g[1..][..m], timeout)
  {
    var tail := FillAll(template, g[1..][..m], timeout);
    forall i | 0 <= i < m + 1 ensures FillAll(template, g[..m + 1], timeout)[i] == ([line] + tail)[i] {
      assert g[..m + 1][i] == g[i];
      if i > 0 {
        assert g[1..][..m][i - 1] == g[i];
      }
    }
  }

  /** The loop and the closed form agree on every grid. */
  lemma RepeatIsSpec(template: string, timeout: int, urls: seq<string>, tries: int, respond: nat -> Record, base: nat)
    ensures Repeat(template, timeout, urls, tries, respond, base)
         == RepeatSpec(template, timeout, Rounds(tries, urls), respond, base)
  {
    var grid := Rounds(tries, urls);
    AttemptSpec(template, timeout, grid, respond, base, 0);
    assert grid[0..] == grid;
  }

  /** What `_repeat_command` promises: one runner answer per command
      issued, at most one per grid cell; it raises only before running
      anything; it returns the first successful answer, after sleeping
      once per failure before it; otherwise it returns `{'rc': 8888}` after
      every cell of the grid failed, having slept after each; with no try
      or no server it runs nothing. */
  lemma RepeatFacts(template: string, timeout: int, urls: seq<string>, tries: int, respond: nat -> Record, base: nat)
    ensures var r := Repeat(template, timeout, urls, tries, respond, base);
      && |r.issued| == |r.answers| <= |Rounds(tries, urls)|
      && r.answers == Answers(respond, base, |r.answers|)
      && (r.reply.Raise? ==> r.reply.error == FormatError && r.answers == [] && r.sleeps == 0)
      && (r.reply.Ok? && r.reply.value.Attempted? ==>
            r.answers != [] && r.reply.value.rec == r.answers[|r.answers| - 1] && r.reply.value.rec.rc == 0
            && r.sleeps == |r.answers| - 1
            && forall i :: 0 <= i < |r.answers| - 1 ==> r.answers[i].rc != 0)
      && (r.reply.Ok? && r.reply.value.RcOnly? ==>
            r.reply.value.rc == SENTINEL_RC && |r.answers| == |Rounds(tries, urls)| && r.sleeps == |r.answers|
            && forall i :: 0 <= i < |r.answers| ==> r.answers[i].rc != 0)
      && (tries <= 0 || urls == [] ==> r == RepeatRun(Ok(RcOnly(SENTINEL_RC)), [], [], 0))
  {
    RepeatIsSpec(template, timeout, urls, tries, respond, base);
    RepeatSpecFacts(template, timeout, Rounds(tries, urls), respond, base);
    RoundsLength(tries, urls);
  }

  /** The same promises, about the closed form on any grid. */
  lemma RepeatSpecFacts(template: string, timeout: int, grid: seq<string>, respond: nat -> Record, base: nat)
    ensures var r := RepeatSpec(template, timeout, grid, respond, base);
      && |r.issued| == |r.answers| <= |grid|
      && r.answers == Answers(respond, base, |r.answers|)
      && (r.reply.Raise? ==> r.reply.error == FormatError && r.answers == [] && r.sleeps == 0)
      && (r.reply.Ok? && r.reply.value.Attempted? ==>
            r.answers != [] && r.reply.value.rec == r.answers[|r.answers| - 1] && r.reply.value.rec.rc == 0
            && r.sleeps == |r.answers| - 1
            && forall i :: 0 <= i < |r.answers| - 1 ==> r.answers[i].rc != 0)
      && (r.reply.Ok? && r.reply.value.RcOnly? ==>
            r.reply.value.rc == SENTINEL_RC && |r.answers| == |grid| && r.sleeps == |r.answers|
            && forall i :: 0 <= i < |r.answers| ==> r.answers[i].rc != 0)
      && (grid == [] ==> r == RepeatRun(Ok(RcOnly(SENTINEL_RC)), [], [], 0))
  {
    if grid != [] && Fillable(template, timeout) {
      RetryFacts(Answers(respond, base, |grid|));
    }
  }

  /** Try-major, URL-minor: the attempt made in try `n` with the `j`-th URL
      is attempt number `n * |urls| + j`, and gpg is run with that URL. */
  lemma RepeatOrder(template: string, timeout: int, urls: seq<string>, tries: int, respond: nat -> Record, base: nat,
                    n: nat, j: nat)
    requires n < tries && j < |urls|
    requires n * |urls| + j < |Repeat(template, timeout, urls, tries, respond, base).issued|
    ensures Some(Repeat(template, timeout, urls, tries, respond, base).issued[n * |urls| + j]) == Fill(template, urls[j], timeout)
  {
    RepeatIsSpec(template, timeout, urls, tries, respond, base);
    RoundsOrder(tries, urls, n, j);
    SpecIssued(template, timeout, Rounds(tries, urls), respond, base, n * |urls| + j);
  }

  /** In the closed form, attempt `k` runs the command line for the `k`-th
      URL of the grid. */
  lemma SpecIssued(template: string, timeout: int, grid: seq<string>, respond: nat -> Record, base: nat, k: nat)
    requires k < |RepeatSpec(template, timeout, grid, respond, base).issued|
    ensures k < |grid| && Some(RepeatSpec(template, timeout, grid, respond, base).issued[k]) == Fill(template, grid[k], timeout)
  {
    RetryFacts(Answers(respond, base, |grid|));
  }

  /** Before the first attempt, the whole run is still to come. */
  lemma RepeatStart(template: string, timeout: int, urls: seq<string>, tries: int, respond: nat -> Record, base: nat)
    ensures Repeat(template, timeout, urls, tries, respond, base)
         == Preceded([], [], 0, Attempt(template, timeout, Rounds(tries, urls), respond, base, 0))
  {
    var r := Repeat(template, timeout, urls, tries, respond, base);
    assert [] + r.issued == r.issued && [] + r.answers == r.answers;
  }

  /** After the last attempt of the grid failed, the run returns
      `{'rc': 8888}`. */
  lemma RepeatEnd(template: string, timeout: int, grid: seq<string>, respond: nat -> Record, base: nat,
                  done: seq<string>, got: seq<Record>)
    ensures Preceded(done, got, |grid|, Attempt(template, timeout, grid, respond, base, |grid|))
         == RepeatRun(Ok(RcOnly(SENTINEL_RC)), done, got, |grid|)
  {
    assert done + [] == done && got + [] == got;
  }


  // ---------------------------------------------------------------------
  // `_execute_task`

  /** How `_execute_task` ends: normally, through `fail_json`, or with an
      exception. */
  datatype Status = Done | Failed | Crashed(error: PyError)

  /** One run of `_execute_task`: how it ended, the value it gave
      `self.changed` (None if it never assigned it), the trace, the
      commands issued and the sleeps. */
  datatype TaskRun = TaskRun(status: Status, changed: Option<bool>, log: Trace, issued: seq<string>, sleeps: nat)

  /** `_execute_task` once the check has answered: `action` is decided,
      the trace so far is `log1` and the runner's next answer is
      `respond(base)`. */
  function Act(cmds: map<Command, string>, urls: seq<string>, p: Params, respond: nat -> Record, base: nat,
               log1: Trace, action: Action): TaskRun
    requires cmds.Keys == ALL_COMMANDS
  {
    match action
    case NoAction => TaskRun(Done, Some(false), log1, [], 0)
    case DeleteKey =>
      var del := respond(base);
      TaskRun(if del.rc == 0 then Done else Failed, Some(del.rc == 0), Logged(log1, Delete, del), [cmds[Delete]], 0)
    case RefreshKey => AfterRefresh(Repeat(cmds[Refresh], p.gpgTimeout, urls, p.tries, respond, base), log1)
    case ReceiveKey => AfterRecv(Repeat(cmds[Recv], p.gpgTimeout, urls, p.tries, respond, base), log1)
  }

  /** The refresh branch after `_repeat_command` ran as `r`: the reply's
      `stderr` decides `changed`, and the sentinel `{'rc': 8888}`, which
      has no `stderr`, raises KeyError there. */
  function AfterRefresh(r: Run, log1: Trace): TaskRun {
    var log2 := LoggedAll(log1, Refresh, r.answers);
    match r.reply
    case Raise(e) => TaskRun(Crashed(e), None, log2, r.issued, r.sleeps)
    case Ok(RcOnly(_)) => TaskRun(Crashed(KeyError("stderr")), None, log2, r.issued, r.sleeps)
    case Ok(Attempted(rec)) =>
      TaskRun(if rec.rc == 0 then Done else Failed, Some(!ReportsUnchanged(rec.stderr)), log2, r.issued, r.sleeps)
  }

  /** The recv branch after `_repeat_command` ran as `r`: `changed` is
      whether the reply's `rc` is 0. */
  function AfterRecv(r: Run, log1: Trace): TaskRun {
    var log2 := LoggedAll(log1, Recv, r.answers);
    match r.reply
    case Raise(e) => TaskRun(Crashed(e), None, log2, r.issued, r.sleeps)
    case Ok(reply) => TaskRun(if reply.Rc() == 0 then Done else Failed, Some(reply.Rc() == 0), log2, r.issued, r.sleeps)
  }

  /** `_execute_task` from the start: `check` runs first, its `rc` decides
      the action. */
  function Task(cmds: map<Command, string>, urls: seq<string>, p: Params, respond: nat -> Record, base: nat, log0: Trace)
    : TaskRun
    requires cmds.Keys == ALL_COMMANDS
  {
    var check := respond(base);
    var t := Act(cmds, urls, p, respond, base + 1, Logged(log0, Check, check), Decide(check.rc == 0, p.state));
    t.(issued := [cmds[Check]] + t.issued)
  }

  /** The object's state after `_execute_task` ran as `t`, from `issued0`,
      `sleeps0` and `changed0`. */
  predicate Finished(t: TaskRun, st: Status, issued0: seq<string>, sleeps0: nat, changed0: Option<bool>,
                     issued: seq<string>, log: Trace, sleeps: nat, changed: Option<bool>) {
    st == t.status && issued == issued0 + t.issued && log == t.log && sleeps == sleeps0 + t.sleeps
    && changed == (if t.changed.Some? then t.changed else changed0)
  }

  /** `check` is the first command run, and its answer is the one record
      added to the `check` section: no later branch runs `check` again. */
  lemma TaskChecksFirst(cmds: map<Command, string>, urls: seq<string>, p: Params, respond: nat -> Record,
                        base: nat, log0: Trace)
    requires cmds.Keys == ALL_COMMANDS
    ensures var t := Task(cmds, urls, p, respond, base, log0);
      && t.issued != [] && t.issued[0] == cmds[Check]
      && Check in t.log && t.log[Check].tries == (if Check in log0 then log0[Check].tries else []) + [respond(base)]
  {
    var check := respond(base);
    var log1 := Logged(log0, Check, check);
    LoggedFacts(log0, Check, check);
    var a := Decide(check.rc == 0, p.state);
    match a
    case NoAction =>
    case DeleteKey =>
      LoggedFacts(log1, Delete, respond(base + 1));
    case RefreshKey =>
      var r := Repeat(cmds[Refresh], p.gpgTimeout, urls, p.tries, respond, base + 1);
      LoggedAllFacts(log1, Refresh, r.answers);
    case ReceiveKey =>
      var r := Repeat(cmds[Recv], p.gpgTimeout, urls, p.tries, respond, base + 1);
      LoggedAllFacts(log1, Recv, r.answers);
  }

  /** Every section's `num_tries` stays equal to the length of its `tries`
      through the whole task. */
  lemma TaskCounted(cmds: map<Command, string>, urls: seq<string>, p: Params, respond: nat -> Record,
                    base: nat, log0: Trace)
    requires cmds.Keys == ALL_COMMANDS && Counted(log0)
    ensures Counted(Task(cmds, urls, p, respond, base, log0).log)
  {
    var check := respond(base);
    var log1 := Logged(log0, Check, check);
    LoggedFacts(log0, Check, check);
    match Decide(check.rc == 0, p.state)
    case NoAction =>
    case DeleteKey =>
      LoggedFacts(log1, Delete, respond(base + 1));
    case RefreshKey =>
      LoggedAllFacts(log1, Refresh, Repeat(cmds[Refresh], p.gpgTimeout, urls, p.tries, respond, base + 1).answers);
    case ReceiveKey =>
      LoggedAllFacts(log1, Recv, Repeat(cmds[Recv], p.gpgTimeout, urls, p.tries, respond, base + 1).answers);
  }

  /** Nothing to do: no command after `check`, `changed` is False and the
      task ends normally. */
  lemma TaskNoAction(cmds: map<Command, string>, urls: seq<string>, p: Params, respond: nat -> Record,
                     base: nat, log0: Trace)
    requires cmds.Keys == ALL_COMMANDS && Decide(respond(base).rc == 0, p.state) == NoAction
    ensures var t := Task(cmds, urls, p, respond, base, log0);
      t.status == Done && t.changed == Some(false) && t.issued == [cmds[Check]] && t.sleeps == 0
  {
  }

  /** Delete: exactly one `delete` after `check`, no retry; `changed` is
      whether it succeeded, and the task fails exactly when it did not. */
  lemma TaskDelete(cmds: map<Command, string>, urls: seq<string>, p: Params, respond: nat -> Record,
                   base: nat, log0: Trace)
    requires cmds.Keys == ALL_COMMANDS && Decide(respond(base).rc == 0, p.state) == DeleteKey
    ensures var t := Task(cmds, urls, p, respond, base, log0);
      var del := respond(base + 1);
      && t.issued == [cmds[Check], cmds[Delete]] && t.sleeps == 0
      && t.changed == Some(del.rc == 0)
      && (t.status == Failed <==> del.rc != 0) && !t.status.Crashed?
  {
  }

  /** Refresh never reaches `fail_json`: a successful attempt ends the task
      normally, with `changed` False exactly when its stderr carries the
      "unchanged" marker; a formatting error raises before anything runs;
      an exhausted loop raises KeyError where `stderr` is read. */
  lemma TaskRefresh(cmds: map<Command, string>, urls: seq<string>, p: Params, respond: nat -> Record,
                    base: nat, log0: Trace)
    requires cmds.Keys == ALL_COMMANDS && Decide(respond(base).rc == 0, p.state) == RefreshKey
    ensures var t := Task(cmds, urls, p, respond, base, log0);
      var r := Repeat(cmds[Refresh], p.gpgTimeout, urls, p.tries, respond, base + 1);
      && t.issued == [cmds[Check]] + r.issued
      && t.status != Failed
      && (t.status == Done <==> r.reply.Ok? && r.reply.value.Attempted?)
      && (t.status == Done ==> t.changed == Some(!HasMarker(r.reply.value.rec.stderr)))
      && (r.reply.Ok? && r.reply.value.RcOnly? ==> t.status == Crashed(KeyError("stderr")) && t.changed == None)
      && (r.reply.Raise? ==> t.status == Crashed(FormatError) && t.issued == [cmds[Check]])
  {
    RepeatFacts(cmds[Refresh], p.gpgTimeout, urls, p.tries, respond, base + 1);
  }

  /** The refresh quirk: when every attempt fails, including when there is
      no try or no server at all, all `tries * |urls|` attempts are made and
      the task raises KeyError instead of failing through `fail_json`. */
  lemma ExhaustedRefreshRaises(cmds: map<Command, string>, urls: seq<string>, p: Params, respond: nat -> Record,
                               base: nat, log0: Trace)
    requires cmds.Keys == ALL_COMMANDS && Decide(respond(base).rc == 0, p.state) == RefreshKey
    requires Fillable(cmds[Refresh], p.gpgTimeout)
    requires forall i :: base < i <= base + |Rounds(p.tries, urls)| ==> respond(i).rc != 0
    ensures var t := Task(cmds, urls, p, respond, base, log0);
      t.status == Crashed(KeyError("stderr")) && |t.issued| == 1 + |Rounds(p.tries, urls)|
  {
    var template, grid := cmds[Refresh], Rounds(p.tries, urls);
    var r := Repeat(template, p.gpgTimeout, urls, p.tries, respond, base + 1);
    RepeatIsSpec(template, p.gpgTimeout, urls, p.tries, respond, base + 1);
    RepeatFacts(template, p.gpgTimeout, urls, p.tries, respond, base + 1);
  }

  /** Receive: `changed` is whether the returned rc is 0, and the task
      fails exactly when it is not; an exhausted loop fails with rc 8888
      after recording all `tries * |urls|` attempts under `recv`. */
  lemma TaskRecv(cmds: map<Command, string>, urls: seq<string>, p: Params, respond: nat -> Record,
                 base: nat, log0: Trace)
    requires cmds.Keys == ALL_COMMANDS && Decide(respond(base).rc == 0, p.state) == ReceiveKey
    ensures var t := Task(cmds, urls, p, respond, base, log0);
      var r := Repeat(cmds[Recv], p.gpgTimeout, urls, p.tries, respond, base + 1);
      && t.issued == [cmds[Check]] + r.issued
      && (r.reply.Ok? ==> t.changed == Some(r.reply.value.Rc() == 0) && (t.status == Failed <==> r.reply.value.Rc() != 0))
      && (r.reply.Ok? && r.reply.value.RcOnly? ==>
            t.status == Failed && |t.issued| == 1 + |Rounds(p.tries, urls)|)
      && (r.reply.Raise? ==> t.status == Crashed(FormatError) && t.issued == [cmds[Check]])
  {
    RepeatFacts(cmds[Recv], p.gpgTimeout, urls, p.tries, respond, base + 1);
  }

  /** `fail_json` is reached only from delete or receive, and always with
      `changed` False. */
  lemma TaskFailed(cmds: map<Command, string>, urls: seq<string>, p: Params, respond: nat -> Record,
                   base: nat, log0: Trace)
    requires cmds.Keys == ALL_COMMANDS
    ensures var t := Task(cmds, urls, p, respond, base, log0);
      t.status == Failed ==>
        t.changed == Some(false) && Decide(respond(base).rc == 0, p.state) in {DeleteKey, ReceiveKey}
  {
    if Decide(respond(base).rc == 0, p.state) == RefreshKey {
      TaskRefresh(cmds, urls, p, respond, base, log0);
    }
  }

  // ---------------------------------------------------------------------
  // The module as a whole: `main`

  /** What the module reports: `exit_json(changed=.., log_dic=..)`,
      `fail_json(msg=log_dic)`, or an exception. */
  datatype Outcome = Exit(changed: bool, logDic: Trace) | Fail(msg: Trace) | Crash(error: PyError)

  datatype ModuleRun = ModuleRun(outcome: Outcome, issued: seq<string>, sleeps: nat)

  /** The module run with binary `bp`, in check mode or not, against a
      runner whose next answers are `respond(base)`, `respond(base + 1)`, ... */
  function Module(p: Params, bp: string, checkMode: bool, respond: nat -> Record, base: nat): ModuleRun {
    var t := Task(Commands(bp, checkMode, p.keyId), Normalise(p.servers), p, respond, base, map[]);
    ModuleRun(
      match t.status
      case Done => Exit(t.changed == Some(true), t.log)
      case Failed => Fail(t.log)
      case Crashed(e) => Crash(e),
      t.issued, t.sleeps)
  }


  /** An entry of `commands` after `_setup_creds` has visited `i` keys:
      filled in once its turn has come, the raw template before. */
  function Setup(c: Command, i: int, bp: string, flag: string, key: string): string {
    if Position(c) < i then Prepared(c, bp, flag, key) else Template(c)
  }

  /** The `commands` dict after `_setup_creds` has visited `i` keys. */
  predicate SetupAt(m: map<Command, string>, i: int, bp: string, flag: string, key: string) {
    m.Keys == ALL_COMMANDS && forall c :: c in m ==> m[c] == Setup(c, i, bp, flag, key)
  }

  /** Visiting the next key fills in its entry, and only that one. */
  lemma SetupStep(m: map<Command, string>, i: nat, bp: string, flag: string, key: string)
    requires i < |DICT_ORDER| && SetupAt(m, i, bp, flag, key)
    ensures var c := DICT_ORDER[i];
      && Format(m[c], [Str(bp), Str(flag), Str(key)]) == Some(Prepared(c, bp, flag, key))
      && SetupAt(m[c := Prepared(c, bp, flag, key)], i + 1, bp, flag, key)
  {
    var c := DICT_ORDER[i];
    assert Position(c) == i;
    StageOne(c, bp, flag, key);
  }

  lemma SetupDone(m: map<Command, string>, bp: string, checkMode: bool, key: string)
    requires m.Keys == ALL_COMMANDS
    requires forall c :: c in m ==> m[c] == Setup(c, |DICT_ORDER|, bp, DryRunFlag(checkMode), key)
    ensures m == Commands(bp, checkMode, key)
  {
  }


  // ---------------------------------------------------------------------
  // The object

  class GpgImport {
    const runner: Runner
    const params: Params
    const binPath: string    // get_bin_path('gpg', True)
    const checkMode: bool
    var commands: map<Command, string>
    var urls: seq<string>
    var logDic: Trace
    var changed: Option<bool>
    var sleeps: nat          // calls of sleep(delay)

    /** The first half of `__init__`: copy the options, `_setup_creds`. */
    constructor (runner: Runner, params: Params, binPath: string, checkMode: bool)
      ensures this.runner == runner && this.params == params
      ensures this.binPath == binPath && this.checkMode == checkMode
      ensures commands == Commands(binPath, checkMode, params.keyId)
      ensures urls == Normalise(params.servers)
      ensures logDic == map[] && changed == None && sleeps == 0
    {
      this.runner := runner;
      this.params := params;
      this.binPath := binPath;
      this.checkMode := checkMode;
      commands := map[];
      urls := [];
      logDic := map[];
      changed := None;
      sleeps := 0;
      new;
      SetupCreds();
    }

    /** `_setup_creds`: the templates with binary, flag and key id filled
      in, and the server list normalised to URLs. */
    method SetupCreds()
      modifies this`commands, this`urls
      ensures commands == Commands(binPath, checkMode, params.keyId)
      ensures urls == Normalise(params.servers)
    {
      var cmds := map[Check := CHECK_TEMPLATE, Delete := DELETE_TEMPLATE,
                      Refresh := REFRESH_TEMPLATE, Recv := RECV_TEMPLATE];
      var bp, flag, key := binPath, DryRunFlag(checkMode), params.keyId;
      var i := 0;
      while i < |DICT_ORDER|
        invariant 0 <= i <= |DICT_ORDER|
        invariant SetupAt(cmds, i, bp, flag, key)
      {
        var c := DICT_ORDER[i];
        SetupStep(cmds, i, bp, flag, key);
        var line := Format(cmds[c], [Str(bp), Str(flag), Str(key)]);
        cmds := cmds[c := line.value];
        i := i + 1;
      }
      commands := cmds;
      SetupDone(commands, binPath, checkMode, params.keyId);
      urls := Normalise(params.servers);
    }

    /** `_legiblify`: record the runner's answer under `sec`. */
    method Legiblify(sec: Command, res: Record) returns (rdic: Record)
      modifies this`logDic
      ensures logDic == Logged(old(logDic), sec, res)
      ensures rdic == res
    {
      var s := if sec in logDic then logDic[sec] else EMPTY_SECTION;
      logDic := logDic[sec := Section(s.tries + [res], s.numTries + 1)];
      rdic := res;
    }

    /** `_execute_command`: run the command as set up, once. */
    method ExecuteCommand(cmd: Command) returns (res: Record)
      requires cmd in commands
      modifies this`logDic, runner
      ensures res == runner.respond(|old(runner.issued)|)
      ensures runner.issued == old(runner.issued) + [commands[cmd]]
      ensures logDic == Logged(old(logDic), cmd, res)
    {
      var raw := runner.Run(commands[cmd]);
      res := Legiblify(cmd, raw);
    }

    /** `_repeat_command`: for each try, for each URL, run the command with
      that URL and the timeout; stop at the first `rc == 0`, sleep after
      every failure. The body of the outer loop is `TryRound`. */
    method RepeatCommand(cmd: Command) returns (res: Result<Reply>)
      requires cmd in commands
      modifies this`logDic, this`sleeps, runner
      ensures Returned(Repeat(commands[cmd], params.gpgTimeout, urls, params.tries, runner.respond, |old(runner.issued)|),
                       res, cmd, old(runner.issued), old(logDic), old(sleeps), runner.issued, logDic, sleeps)
    {
      ghost var template, grid := commands[cmd], Rounds(params.tries, urls);
      ghost var base := |runner.issued|;
      ghost var goal := Repeat(template, params.gpgTimeout, urls, params.tries, runner.respond, base);
      RepeatStart(template, params.gpgTimeout, urls, params.tries, runner.respond, base);
      res := RepeatLoop(cmd, template, grid, goal, base);
    }

    method RepeatLoop(cmd: Command, ghost template: string, ghost grid: seq<string>, ghost goal: Run, ghost base: nat)
      returns (res: Result<Reply>)
      requires cmd in commands && template == commands[cmd] && grid == Rounds(params.tries, urls)
      requires |runner.issued| == base
      requires goal == Preceded([], [], 0, Attempt(template, params.gpgTimeout, grid, runner.respond, base, 0))
      modifies this`logDic, this`sleeps, runner
      ensures Returned(goal, res, cmd, old(runner.issued), old(logDic), old(sleeps), runner.issued, logDic, sleeps)
    {
      ghost var log0, issued0, sleeps0 := logDic, runner.issued, sleeps;
      ghost var done: seq<string>, got: seq<Record> := [], [];
      var n := 0;
      ghost var v := 0;
      while n < params.tries
        invariant 0 <= n && (params.tries > 0 ==> n <= params.tries) && v == |Rounds(n, urls)|
        invariant Midway(goal, Attempt(template, params.gpgTimeout, grid, runner.respond, base, v),
                         done, got, v, cmd, issued0, log0, sleeps0, runner.issued, logDic, sleeps)
      {
        var stop;
        stop, res, done, got := TryRound(cmd, n, template, grid, goal, base, v, done, got, issued0, log0, sleeps0);
        if stop {
          return;
        }
        n, v := n + 1, v + |urls|;
      }
      assert Rounds(n, urls) == grid;
      RepeatEnd(template, params.gpgTimeout, grid, runner.respond, base, done, got);
      return Ok(RcOnly(SENTINEL_RC));
    }

    /** One pass of the outer loop: attempts `v` to `v + |urls| - 1`, one per
        server. */
    method TryRound(cmd: Command, n: int, ghost template: string, ghost grid: seq<string>, ghost goal: Run,
                    ghost base: nat, ghost v: nat,
                    ghost done: seq<string>, ghost got: seq<Record>,
                    ghost issued0: seq<string>, ghost log0: Trace, ghost sleeps0: nat)
      returns (stop: bool, res: Result<Reply>, ghost done': seq<string>, ghost got': seq<Record>)
      requires cmd in commands && template == commands[cmd] && grid == Rounds(params.tries, urls)
      requires |issued0| == base && 0 <= n < params.tries && v == |Rounds(n, urls)|
      requires Midway(goal, Attempt(template, params.gpgTimeout, grid, runner.respond, base, v),
                      done, got, v, cmd, issued0, log0, sleeps0, runner.issued, logDic, sleeps)
      modifies this`logDic, this`sleeps, runner
      ensures stop ==> Returned(goal, res, cmd, issued0, log0, sleeps0, runner.issued, logDic, sleeps)
      ensures !stop ==> Midway(goal, Attempt(template, params.gpgTimeout, grid, runner.respond, base, v + |urls|),
                               done', got', v + |urls|, cmd, issued0, log0, sleeps0, runner.issued, logDic, sleeps)
    {
      done', got' := done, got;
      ghost var w := v;
      var j := 0;
      while j < |urls|
        invariant 0 <= j <= |urls| && w == v + j
        invariant Midway(goal, Attempt(template, params.gpgTimeout, grid, runner.respond, base, w),
                         done', got', w, cmd, issued0, log0, sleeps0, runner.issued, logDic, sleeps)
      {
        RoundsNext(params.tries, urls, n, j);
        stop, res, done', got' := TryServer(cmd, urls[j], template, grid, goal, base, w, done', got', issued0, log0, sleeps0);
        if stop {
          return;
        }
        w, j := w + 1, j + 1;
      }
      return false, Ok(RcOnly(SENTINEL_RC)), done', got';
    }

    method TryServer(cmd: Command, u: string, ghost template: string, ghost grid: seq<string>, ghost goal: Run,
                     ghost base: nat, ghost v: nat,
                     ghost done: seq<string>, ghost got: seq<Record>,
                     ghost issued0: seq<string>, ghost log0: Trace, ghost sleeps0: nat)
      returns (stop: bool, res: Result<Reply>, ghost done': seq<string>, ghost got': seq<Record>)
      requires cmd in commands && template == commands[cmd] && |issued0| == base
      requires v < |grid| && grid[v] == u
      requires Midway(goal, Attempt(template, params.gpgTimeout, grid, runner.respond, base, v),
                      done, got, v, cmd, issued0, log0, sleeps0, runner.issued, logDic, sleeps)
      modifies this`logDic, this`sleeps, runner
      ensures stop ==> Returned(goal, res, cmd, issued0, log0, sleeps0, runner.issued, logDic, sleeps)
      ensures !stop ==> Midway(goal, Attempt(template, params.gpgTimeout, grid, runner.respond, base, v + 1),
                               done', got', v + 1, cmd, issued0, log0, sleeps0, runner.issued, logDic, sleeps)
    {
      done', got' := done, got;
      assert Attempt(template, params.gpgTimeout, grid, runner.respond, base, v)
          == Step(template, params.gpgTimeout, grid, runner.respond, base, v);
      var line := Fill(commands[cmd], u, params.gpgTimeout);
      if line.None? {
        assert done + [] == done && got + [] == got;
        return true, Raise(FormatError), done', got';
      }
      var raw := runner.Run(line.value);
      var rec := Legiblify(cmd, raw);
      LoggedAllStep(log0, cmd, got, rec);
      if rec.rc == 0 {
        return true, Ok(Attempted(rec)), done', got';
      }
      PrecededTwice(done, got, v, [line.value], [rec], 1, Attempt(template, params.gpgTimeout, grid, runner.respond, base, v + 1));
      sleeps := sleeps + 1;
      return false, Ok(RcOnly(SENTINEL_RC)), done + [line.value], got + [rec];
    }

    /** `_execute_task`: probe with `check`, take the branch the table
      picks, set `changed`, report failure when the final rc is not 0. */
    method ExecuteTask() returns (st: Status)
      requires commands.Keys == ALL_COMMANDS
      modifies this`logDic, this`sleeps, this`changed, runner
      ensures Finished(Task(commands, urls, params, runner.respond, |old(runner.issued)|, old(logDic)), st,
                       old(runner.issued), old(sleeps), old(changed), runner.issued, logDic, sleeps, changed)
    {
      var res := ExecuteCommand(Check);
      var keyPresent := res.rc == 0;
      var action := Decide(keyPresent, params.state);
      st := ActOn(action);
    }

    /** The rest of `_execute_task`, once the action is decided. */
    method ActOn(action: Action) returns (st: Status)
      requires commands.Keys == ALL_COMMANDS
      modifies this`logDic, this`sleeps, this`changed, runner
      ensures Finished(Act(commands, urls, params, runner.respond, |old(runner.issued)|, old(logDic), action), st,
                       old(runner.issued), old(sleeps), old(changed), runner.issued, logDic, sleeps, changed)
    {
      var rc: int;
      if action == DeleteKey {
        var res := ExecuteCommand(Delete);
        changed := Some(res.rc == 0);
        rc := res.rc;
      } else if action == RefreshKey {
        var r := RepeatCommand(Refresh);
        if r.Raise? {
          return Crashed(r.error);
        }
        if r.value.RcOnly? {
          return Crashed(KeyError("stderr"));
        }
        changed := Some(!ReportsUnchanged(r.value.rec.stderr));
        rc := r.value.Rc();
      } else if action == ReceiveKey {
        var r := RepeatCommand(Recv);
        if r.Raise? {
          return Crashed(r.error);
        }
        changed := Some(r.value.Rc() == 0);
        rc := r.value.Rc();
      } else {
        changed := Some(false);
        rc := 0;
      }
      if rc != 0 {
        return Failed;
      }
      return Done;
    }
  }

  /** `main`: build the object, which runs the task, and report. */
  method RunModule(runner: Runner, p: Params, binPath: string, checkMode: bool) returns (o: Outcome)
    modifies runner
    ensures var m := Module(p, binPath, checkMode, runner.respond, |old(runner.issued)|);
      o == m.outcome && runner.issued == old(runner.issued) + m.issued
  {
    var gkm := new GpgImport(runner, p, binPath, checkMode);
    var st := gkm.ExecuteTask();
    match st
    case Done => o := Exit(gkm.changed == Some(true), gkm.logDic);
    case Failed => o := Fail(gkm.logDic);
    case Crashed(e) => o := Crash(e);
  }
}
