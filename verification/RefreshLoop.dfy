/** The loop that keeps one server's OAuth token fresh and reconnects with each new token. */
module RefreshLoop {
  import opened Common

  datatype Exchange = Refreshed | InjectedToken | NoRefreshToken | NoCredentials | AuthError | TransientError

  datatype Reconnect = Ok | AuthFailed | OtherError

  datatype ServerView = ServerView(enabled: bool, oauth: bool, url: Option<string>)

  datatype Expiry = Expiry(receivedAt: nat, expiresIn: Option<nat>)

  // What one turn of the loop meets: the configuration is read twice and may
  // change in between.
  datatype Turn = Turn(
    cancelled: bool,
    generationCurrent: bool,
    server: Option<ServerView>,
    cached: Option<Expiry>,
    now: nat,
    serverAgain: Option<ServerView>,
    exchange: Exchange,
    reconnect: Reconnect)

  datatype Action =
    | Slept(secs: nat)
    | Exchanged(outcome: Exchange)
    | Reconnected(result: Reconnect)
    | MarkedAuthRequired
    | ClearedGeneration

  // -------------------------------------------------------------------------
  // When a token is due, in seconds
  // -------------------------------------------------------------------------

  const DEFAULT_TOKEN_LIFETIME: nat := 3600
  const TOKEN_REFRESH_WINDOW: nat := 300
  const SHORT_LIVED: nat := 600

  function Clamp(v: nat, low: nat, high: nat): nat {
    if v < low then low else if v > high then high else v
  }

  function Lifetime(expiresIn: Option<nat>): nat {
    match expiresIn
    case None => DEFAULT_TOKEN_LIFETIME
    case Some(v) => if v == 0 then DEFAULT_TOKEN_LIFETIME else Clamp(v, 60, 86400)
  }

  function RefreshAt(expiresIn: Option<nat>): nat {
    var life := Lifetime(expiresIn);
    if life < SHORT_LIVED then life / 2 else SaturatingSub(life, TOKEN_REFRESH_WINDOW)
  }

  predicate NeedsRefresh(e: Expiry, now: nat) {
    SaturatingSub(now, e.receivedAt) >= RefreshAt(e.expiresIn)
  }

  function UntilWindow(e: Expiry, now: nat): nat {
    SaturatingSub(RefreshAt(e.expiresIn), SaturatingSub(now, e.receivedAt))
  }

  function NextCheck(e: Expiry, now: nat): nat {
    var capped := Min(UntilWindow(e, now), 30);
    if capped < 5 then 5 else capped
  }

  // The refresh is due strictly within the token's life, and a sleep never
  // overshoots the moment it falls due by five seconds or more.
  lemma SleepsTowardsTheWindow(e: Expiry, now: nat)
    requires !NeedsRefresh(e, now) && e.receivedAt <= now
    ensures 30 <= RefreshAt(e.expiresIn) < Lifetime(e.expiresIn)
    ensures 5 <= NextCheck(e, now) <= 30
    ensures now + NextCheck(e, now) < e.receivedAt + RefreshAt(e.expiresIn) + 5
    ensures now + NextCheck(e, now) < e.receivedAt + Lifetime(e.expiresIn)
  {
  }

  // -------------------------------------------------------------------------
  // What a log of actions has to look like
  // -------------------------------------------------------------------------

  // A new token is in hand that no reconnect has taken up yet.
  predicate TokenPending(log: seq<Action>) {
    log != []
    && match log[|log| - 1]
       case Exchanged(outcome) => outcome == Refreshed || TokenPending(log[..|log| - 1])
       case Reconnected(result) => result != Ok && TokenPending(log[..|log| - 1])
       case _ => TokenPending(log[..|log| - 1])
  }

  predicate Terminal(a: Action) {
    || a == MarkedAuthRequired
    || (a.Exchanged? && a.outcome in {NoRefreshToken, NoCredentials, AuthError})
    || a == Reconnected(AuthFailed)
  }

  // An exchange happens only with no token pending, a reconnect only with one;
  // every sleep is between five and thirty seconds.
  predicate Disciplined(log: seq<Action>) {
    forall i :: 0 <= i < |log| ==>
      match log[i]
      case Slept(secs) => 5 <= secs <= 30
      case Exchanged(_) => !TokenPending(log[..i])
      case Reconnected(_) => TokenPending(log[..i])
      case _ => true
  }

  predicate NoTerminal(log: seq<Action>) {
    forall i :: 0 <= i < |log| ==> !Terminal(log[i])
  }

  // Nothing but the mark itself follows a terminal outcome.
  predicate EndsAtTerminal(log: seq<Action>) {
    forall i, j :: 0 <= i < j < |log| && Terminal(log[i]) ==> log[j] == MarkedAuthRequired && j == |log| - 1
  }

  lemma {:induction false} PendingSinceRefresh(log: seq<Action>, i: nat)
    requires i < |log| && log[i] == Exchanged(Refreshed)
    requires forall k :: i < k < |log| ==> log[k] != Reconnected(Ok)
    ensures TokenPending(log)
    decreases |log|
  {
    if i < |log| - 1 {
      PendingSinceRefresh(log[..|log| - 1], i);
    }
  }

  lemma ReconnectBetween(log: seq<Action>, i: nat, j: nat)
    requires Disciplined(log) && i < j < |log|
    requires log[i] == Exchanged(Refreshed) && log[j] == Exchanged(Refreshed)
    ensures exists k :: i < k < j && log[k] == Reconnected(Ok)
  {
    if forall k :: i < k < j ==> log[k] != Reconnected(Ok) {
      PendingSinceRefresh(log[..j], i);
      assert false;
    }
  }

  // -------------------------------------------------------------------------
  // The loop
  // -------------------------------------------------------------------------

  datatype Loop = Loop(log: seq<Action>, nextCheck: nat, pending: bool, over: bool) {
    function Do(a: Action): Loop {
      this.(log := log + [a])
    }

    function Stop(a: Action): Loop {
      this.(log := log + [a], over := true)
    }

    function Wait(secs: nat): Loop {
      this.(nextCheck := secs)
    }
  }

  const Initial := Loop([], 30, false, false)

  function ReconnectStep(s: Loop, result: Reconnect): Loop {
    var tried := s.Do(Reconnected(result)).Wait(30);
    match result
    case Ok => tried.(pending := false)
    case AuthFailed => tried.Stop(MarkedAuthRequired)
    case OtherError => tried.(pending := true)
  }

  function ExchangeStep(s: Loop, turn: Turn): Loop {
    if turn.serverAgain.None? || turn.serverAgain.value.url.None? then s.Stop(ClearedGeneration)
    else
      var asked := s.Do(Exchanged(turn.exchange));
      match turn.exchange
      case Refreshed => ReconnectStep(asked, turn.reconnect)
      case InjectedToken => asked.Wait(30)
      case TransientError => asked.Wait(30)
      case _ => asked.Stop(MarkedAuthRequired)
  }

  function TurnStep(s: Loop, turn: Turn): Loop {
    if s.over then s
    else if turn.cancelled then s.(over := true)
    else
      var awake := s.Do(Slept(s.nextCheck));
      if !turn.generationCurrent then awake.(over := true)
      else if turn.server.None? then awake.Stop(ClearedGeneration)
      else if !turn.server.value.enabled || !turn.server.value.oauth then awake.(over := true)
      else if s.pending then ReconnectStep(awake, turn.reconnect)
      else if turn.cached.None? then awake.Wait(30)
      else if !NeedsRefresh(turn.cached.value, turn.now) then awake.Wait(NextCheck(turn.cached.value, turn.now))
      else ExchangeStep(awake, turn)
  }

  function After(turns: seq<Turn>): Loop {
    if turns == [] then Initial else TurnStep(After(turns[..|turns| - 1]), turns[|turns| - 1])
  }

  ghost predicate LoopInv(s: Loop) {
    && 5 <= s.nextCheck <= 30
    && Disciplined(s.log) && EndsAtTerminal(s.log)
    && (!s.over ==> NoTerminal(s.log) && s.pending == TokenPending(s.log))
    && (NoTerminal(s.log) || (s.over && s.log[|s.log| - 1] == MarkedAuthRequired))
  }

  lemma Append(log: seq<Action>, a: Action)
    requires Disciplined(log) && NoTerminal(log)
    requires a.Slept? ==> 5 <= a.secs <= 30
    requires a.Exchanged? ==> !TokenPending(log)
    requires a.Reconnected? ==> TokenPending(log)
    ensures Disciplined(log + [a]) && EndsAtTerminal(log + [a])
    ensures NoTerminal(log + [a]) == !Terminal(a)
    ensures TokenPending(log + [a]) == (a == Exchanged(Refreshed) || (a != Reconnected(Ok) && TokenPending(log)))
  {
    var more := log + [a];
    assert more[..|log|] == log && more[|log|] == a;
    forall i | 0 <= i < |log| ensures more[..i] == log[..i] && more[i] == log[i] {}
  }

  lemma AppendMark(log: seq<Action>, a: Action)
    requires Disciplined(log + [a]) && NoTerminal(log) && Terminal(a) && a != MarkedAuthRequired
    ensures Disciplined(log + [a] + [MarkedAuthRequired]) && EndsAtTerminal(log + [a] + [MarkedAuthRequired])
  {
    var more := log + [a] + [MarkedAuthRequired];
    forall i | 0 <= i <= |log| ensures more[..i] == (log + [a])[..i] && more[i] == (log + [a])[i] {}
  }

  lemma ReconnectStepInv(s: Loop, result: Reconnect)
    requires Disciplined(s.log) && NoTerminal(s.log) && TokenPending(s.log) && !s.over
    ensures LoopInv(ReconnectStep(s, result))
  {
    Append(s.log, Reconnected(result));
    if result == AuthFailed {
      AppendMark(s.log, Reconnected(result));
    }
  }

  lemma RefusedExchangeInv(s: Loop, outcome: Exchange)
    requires LoopInv(s) && !s.over && !s.pending && Terminal(Exchanged(outcome))
    ensures LoopInv(s.Do(Exchanged(outcome)).Stop(MarkedAuthRequired))
  {
    Append(s.log, Exchanged(outcome));
    AppendMark(s.log, Exchanged(outcome));
  }

  lemma ClearedInv(s: Loop)
    requires LoopInv(s) && !s.over
    ensures LoopInv(s.Stop(ClearedGeneration))
  {
    Append(s.log, ClearedGeneration);
  }

  lemma HarmlessInv(s: Loop, outcome: Exchange)
    requires LoopInv(s) && !s.over && !s.pending
    requires outcome.InjectedToken? || outcome.TransientError?
    ensures LoopInv(s.Do(Exchanged(outcome)).Wait(30))
  {
    Append(s.log, Exchanged(outcome));
    var after := s.Do(Exchanged(outcome)).Wait(30);
    assert after.log == s.log + [Exchanged(outcome)];
    assert NoTerminal(after.log);
  }

  lemma RefreshedInv(s: Loop, result: Reconnect)
    requires LoopInv(s) && !s.over && !s.pending
    ensures LoopInv(ReconnectStep(s.Do(Exchanged(Refreshed)), result))
  {
    Append(s.log, Exchanged(Refreshed));
    ReconnectStepInv(s.Do(Exchanged(Refreshed)), result);
  }

  lemma ExchangeStepInv(s: Loop, turn: Turn)
    requires LoopInv(s) && !s.over && !s.pending
    ensures LoopInv(ExchangeStep(s, turn))
  {
    if turn.serverAgain.None? || turn.serverAgain.value.url.None? {
      ClearedInv(s);
    } else if turn.exchange == Refreshed {
      RefreshedInv(s, turn.reconnect);
    } else if Terminal(Exchanged(turn.exchange)) {
      RefusedExchangeInv(s, turn.exchange);
    } else {
      HarmlessInv(s, turn.exchange);
    }
  }

  lemma SleptInv(s: Loop)
    requires LoopInv(s) && !s.over
    ensures LoopInv(s.Do(Slept(s.nextCheck))) && TokenPending(s.log + [Slept(s.nextCheck)]) == TokenPending(s.log)
  {
    Append(s.log, Slept(s.nextCheck));
  }

  lemma TurnStepInv(s: Loop, turn: Turn)
    requires LoopInv(s)
    ensures LoopInv(TurnStep(s, turn))
  {
    if !s.over && !turn.cancelled {
      var awake := s.Do(Slept(s.nextCheck));
      SleptInv(s);
      ClearedInv(awake);
      if s.pending {
        ReconnectStepInv(awake, turn.reconnect);
      } else {
        ExchangeStepInv(awake, turn);
      }
    }
  }

  // Over every sequence of turns: no exchange with a token pending, no
  // reconnect without one, nothing after a terminal outcome but the mark, and
  // every sleep within bounds.
  lemma {:induction false} EveryRunIsDisciplined(turns: seq<Turn>)
    ensures LoopInv(After(turns))
  {
    if turns != [] {
      EveryRunIsDisciplined(turns[..|turns| - 1]);
      TurnStepInv(After(turns[..|turns| - 1]), turns[|turns| - 1]);
    }
  }

  // Two tokens are never fetched in a row: in every run, between any two
  // successful exchanges there is a reconnect that returned Ok.
  lemma ReconnectBetweenRefreshes(turns: seq<Turn>, i: nat, j: nat)
    requires i < j < |After(turns).log|
    requires After(turns).log[i] == Exchanged(Refreshed) && After(turns).log[j] == Exchanged(Refreshed)
    ensures exists k :: i < k < j && After(turns).log[k] == Reconnected(Ok)
  {
    EveryRunIsDisciplined(turns);
    ReconnectBetween(After(turns).log, i, j);
  }

  lemma TerminalEnds(s: Loop, i: nat)
    requires LoopInv(s) && i < |s.log| && Terminal(s.log[i])
    ensures s.over
    ensures forall j :: i < j < |s.log| ==> s.log[j] == MarkedAuthRequired
    ensures i >= |s.log| - 2
  {
    var log := s.log;
    forall j | i < j < |log| ensures log[j] == MarkedAuthRequired && j == |log| - 1 {
      assert EndsAtTerminal(log) && Terminal(log[i]);
    }
    if i + 1 < |log| {
      assert log[i + 1] == MarkedAuthRequired && i + 1 == |log| - 1;
    }
  }

  // In every run, nothing is exchanged and nothing reconnected after a terminal
  // outcome: what follows one is the mark, it is the last action, and the loop
  // is over.
  lemma NoExchangeAfterTerminal(turns: seq<Turn>, i: nat)
    requires i < |After(turns).log| && Terminal(After(turns).log[i])
    ensures After(turns).over
    ensures forall j :: i < j < |After(turns).log| ==> After(turns).log[j] == MarkedAuthRequired
    ensures i >= |After(turns).log| - 2
  {
    EveryRunIsDisciplined(turns);
    TerminalEnds(After(turns), i);
  }

  lemma {:induction false} OverIsOver(turns: seq<Turn>, i: nat)
    requires i <= |turns| && After(turns[..i]).over
    ensures After(turns) == After(turns[..i])
    decreases |turns| - i
  {
    if i < |turns| {
      assert turns[..i + 1][..i] == turns[..i];
      OverIsOver(turns, i + 1);
    } else {
      assert turns[..i] == turns;
    }
  }

  // -------------------------------------------------------------------------
  // When a token is exchanged
  // -------------------------------------------------------------------------

  // The server is there and on, signs in with OAuth and has an address, at both
  // looks; nothing has ended or replaced this loop.
  predicate IsServing(turn: Turn) {
    && !turn.cancelled && turn.generationCurrent
    && turn.server.Some? && turn.server.value.enabled && turn.server.value.oauth
    && turn.serverAgain.Some? && turn.serverAgain.value.url.Some?
  }

  // When the token falls due and when its life is over, in seconds: a lifetime of
  // 600 or more, up to a day, has 300 left, a shorter one, from a minute, half.
  ghost predicate HasTimes(e: Expiry, due: nat, life: nat) {
    match e.expiresIn
    case None => life == e.receivedAt + 3600 && due == e.receivedAt + 3300
    case Some(secs) =>
      && (secs == 0 ==> life == e.receivedAt + 3600 && due == e.receivedAt + 3300)
      && (0 < secs < 60 ==> life == e.receivedAt + 60 && due == e.receivedAt + 30)
      && (60 <= secs < 600 ==> life == e.receivedAt + secs && due == e.receivedAt + secs / 2)
      && (600 <= secs <= 86400 ==> life == e.receivedAt + secs && due == life - 300)
      && (secs > 86400 ==> life == e.receivedAt + 86400 && due == e.receivedAt + 86100)
  }

  lemma DueExactly(e: Expiry, now: nat, due: nat, life: nat)
    requires HasTimes(e, due, life)
    ensures NeedsRefresh(e, now) <==> now >= due
    ensures e.receivedAt + 30 <= due && due + 30 <= life
    ensures 5 <= NextCheck(e, now) <= 30 && (now < due ==> now + NextCheck(e, now) < due + 5)
  {
  }

  lemma ServingTurn(s: Loop, turn: Turn, due: nat, life: nat)
    requires !s.over && !s.pending && IsServing(turn) && turn.cached.Some? && HasTimes(turn.cached.value, due, life)
    ensures var before, log := s.log + [Slept(s.nextCheck)], TurnStep(s, turn).log;
            if turn.now >= due then before + [Exchanged(turn.exchange)] <= log else log == before
  {
    DueExactly(turn.cached.value, turn.now, due, life);
  }

  lemma PendingIsOnRecord(turns: seq<Turn>)
    requires !After(turns).over
    ensures After(turns).pending == TokenPending(After(turns).log)
  {
    EveryRunIsDisciplined(turns);
  }

  // In every run, a turn with no token waiting to be taken up and a server to
  // serve exchanges the token exactly when it has fallen due; otherwise it does
  // nothing but sleep.
  lemma ExchangesExactlyWhenDue(turns: seq<Turn>, turn: Turn, due: nat, life: nat)
    requires !After(turns).over && !TokenPending(After(turns).log)
    requires IsServing(turn) && turn.cached.Some? && HasTimes(turn.cached.value, due, life)
    ensures var before, log := After(turns).log + [Slept(After(turns).nextCheck)], After(turns + [turn]).log;
            if turn.now >= due then before + [Exchanged(turn.exchange)] <= log else log == before
  {
    PendingIsOnRecord(turns);
    ServingTurn(After(turns), turn, due, life);
    assert (turns + [turn])[..|turns|] == turns;
  }

  // With a token waiting to be taken up, the turn tries to reconnect instead.
  lemma ReconnectsWhilePending(turns: seq<Turn>, turn: Turn)
    requires !After(turns).over && TokenPending(After(turns).log) && IsServing(turn)
    ensures After(turns).log + [Slept(After(turns).nextCheck), Reconnected(turn.reconnect)] <= After(turns + [turn]).log
  {
    EveryRunIsDisciplined(turns);
    assert (turns + [turn])[..|turns|] == turns;
  }

  // The next look is when the token falls due, but in 5 seconds at the soonest and 30
  // at the latest; with no token, one just exchanged, or one waiting, it is in 30.
  lemma LooksAgainExactly(turns: seq<Turn>, turn: Turn, due: nat, life: nat)
    requires !After(turns).over && IsServing(turn) && !After(turns + [turn]).over
    requires turn.cached.Some? ==> HasTimes(turn.cached.value, due, life) && turn.cached.value.receivedAt <= turn.now
    ensures After(turns + [turn]).nextCheck ==
            if !TokenPending(After(turns).log) && turn.cached.Some? && turn.now < due
            then if due - turn.now < 5 then 5 else if due - turn.now < 30 then due - turn.now else 30
            else 30
  {
    PendingIsOnRecord(turns);
    assert (turns + [turn])[..|turns|] == turns;
    WaitsOnStep(After(turns), turn);
    if turn.cached.Some? {
      DueExactly(turn.cached.value, turn.now, due, life);
      if turn.now < due {
        NextCheckExactly(turn.cached.value, turn.now, due, life);
      }
    }
  }

  lemma NextCheckExactly(e: Expiry, now: nat, due: nat, life: nat)
    requires HasTimes(e, due, life) && e.receivedAt <= now < due
    ensures NextCheck(e, now) == if due - now < 5 then 5 else if due - now < 30 then due - now else 30
  {
  }

  lemma WaitsOnStep(s: Loop, turn: Turn)
    requires !s.over && IsServing(turn) && !TurnStep(s, turn).over
    ensures TurnStep(s, turn).nextCheck ==
            if !s.pending && turn.cached.Some? && !NeedsRefresh(turn.cached.value, turn.now)
            then NextCheck(turn.cached.value, turn.now) else 30
  {
  }

  // Cancelled, its place taken, or no server to serve.
  predicate IsOutOfPlace(turn: Turn) {
    || turn.cancelled || !turn.generationCurrent || turn.server.None?
    || !turn.server.value.enabled || !turn.server.value.oauth
  }

  // The last thing done was to give up the place or to ask for a sign-in.
  predicate GaveUp(log: seq<Action>) {
    log != [] && (log[|log| - 1] == ClearedGeneration || log[|log| - 1] == MarkedAuthRequired)
  }

  lemma EndsOnStep(s: Loop, turn: Turn, after: Loop)
    requires !s.over && after == TurnStep(s, turn)
    ensures after.over <==> IsOutOfPlace(turn) || GaveUp(after.log)
  {
  }

  lemma OneTurnAfter(turns: seq<Turn>, turn: Turn)
    ensures After(turns + [turn]) == TurnStep(After(turns), turn)
  {
    assert (turns + [turn])[..|turns|] == turns;
  }

  // A turn ends the loop exactly when it is cancelled, its place has been taken,
  // there is no server to serve, or it gave up.
  lemma EndsExactly(turns: seq<Turn>, turn: Turn)
    requires !After(turns).over
    ensures After(turns + [turn]).over <==> IsOutOfPlace(turn) || GaveUp(After(turns + [turn]).log)
  {
    OneTurnAfter(turns, turn);
    EndsOnStep(After(turns), turn, After(turns + [turn]));
  }

  // The turns so far have the same token in hand, none of them late enough to
  // find it due, and each comes as long after the one before as the loop sleeps,
  // and at most `delay` seconds more.
  ghost predicate WaitsForIt(before: seq<Turn>, turns: seq<Turn>, e: Expiry, due: nat, delay: nat) {
    && (forall k :: 0 <= k < |turns| ==> IsServing(turns[k]) && turns[k].cached == Some(e))
    && (forall k :: 0 <= k < |turns| - 1 ==> turns[k].now < due)
    && (forall k :: 0 < k < |turns| ==>
          var slept := After(before + turns[..k]).nextCheck;
          turns[k - 1].now + slept <= turns[k].now <= turns[k - 1].now + slept + delay)
  }

  lemma OneMoreTurn(before: seq<Turn>, turns: seq<Turn>, k: nat)
    requires k < |turns|
    ensures After(before + turns[..k + 1]) == TurnStep(After(before + turns[..k]), turns[k])
  {
    assert (before + turns[..k + 1])[..|before| + k] == before + turns[..k];
  }

  // Up to the turn that finds it due, the loop only sleeps.
  lemma {:induction false} OnlySleeps(
    before: seq<Turn>, turns: seq<Turn>, e: Expiry, due: nat, life: nat, delay: nat, k: nat)
    requires !After(before).over && !TokenPending(After(before).log) && HasTimes(e, due, life)
    requires WaitsForIt(before, turns, e, due, delay) && k < |turns|
    ensures !After(before + turns[..k]).over && !TokenPending(After(before + turns[..k]).log)
    ensures k > 0 ==> After(before + turns[..k]).nextCheck == NextCheck(e, turns[k - 1].now)
  {
    if k == 0 {
      assert before + turns[..0] == before;
    } else {
      OnlySleeps(before, turns, e, due, life, delay, k - 1);
      OneMoreTurn(before, turns, k - 1);
      EveryRunIsDisciplined(before + turns[..k - 1]);
      DueExactly(e, turns[k - 1].now, due, life);
      SleptInv(After(before + turns[..k - 1]));
    }
  }

  // A turn that finds the token due finds it in time.
  lemma DueTurnIsInTime(
    before: seq<Turn>, turns: seq<Turn>, e: Expiry, due: nat, life: nat, delay: nat)
    requires !After(before).over && !TokenPending(After(before).log) && HasTimes(e, due, life)
    requires WaitsForIt(before, turns, e, due, delay) && turns != [] && delay <= 25 && turns[0].now < life
    ensures turns[|turns| - 1].now < life
  {
    var k := |turns| - 1;
    if k > 0 {
      OnlySleeps(before, turns, e, due, life, delay, k);
      DueExactly(e, turns[k - 1].now, due, life);
    }
  }

  lemma LastTurnExchanges(before: seq<Turn>, turns: seq<Turn>, due: nat, life: nat)
    requires turns != []
    requires var sofar, turn := before + turns[..|turns| - 1], turns[|turns| - 1];
             && !After(sofar).over && !TokenPending(After(sofar).log)
             && IsServing(turn) && turn.cached.Some? && HasTimes(turn.cached.value, due, life) && turn.now >= due
    ensures var sofar, turn := before + turns[..|turns| - 1], turns[|turns| - 1];
            After(sofar).log + [Slept(After(sofar).nextCheck)] + [Exchanged(turn.exchange)] <= After(before + turns).log
  {
    var n := |turns| - 1;
    PendingIsOnRecord(before + turns[..n]);
    ServingTurn(After(before + turns[..n]), turns[n], due, life);
    OneMoreTurn(before, turns, n);
    assert turns[..n + 1] == turns;
  }

  // A token in hand when a turn comes round is exchanged before its life is over,
  // as long as the server is there and no turn is held up by more than 25 seconds
  // beyond its sleep: the turn that finds it due, however many came before, is in
  // time, and exchanges it.
  lemma TokenIsExchangedInTime(
    before: seq<Turn>, turns: seq<Turn>, e: Expiry, due: nat, life: nat, delay: nat)
    requires !After(before).over && !TokenPending(After(before).log) && HasTimes(e, due, life)
    requires WaitsForIt(before, turns, e, due, delay) && turns != [] && delay <= 25 && turns[0].now < life
    requires turns[|turns| - 1].now >= due
    ensures turns[|turns| - 1].now < life
    ensures var n := |turns| - 1;
            After(before + turns[..n]).log + [Slept(After(before + turns[..n]).nextCheck)]
            + [Exchanged(turns[n].exchange)] <= After(before + turns).log
  {
    DueTurnIsInTime(before, turns, e, due, life, delay);
    OnlySleeps(before, turns, e, due, life, delay, |turns| - 1);
    LastTurnExchanges(before, turns, due, life);
  }

  // And such a turn comes: every turn that does not find it due moves the clock on
  // by five seconds or more.
  lemma {:induction false} DueTurnComes(
    before: seq<Turn>, turns: seq<Turn>, e: Expiry, due: nat, life: nat, delay: nat)
    requires !After(before).over && !TokenPending(After(before).log) && HasTimes(e, due, life)
    requires WaitsForIt(before, turns, e, due, delay) && turns != []
    ensures turns[|turns| - 1].now >= turns[0].now + 5 * (|turns| - 1)
    ensures 5 * (|turns| - 2) < due
  {
    var n := |turns| - 1;
    if n > 0 {
      var shorter := turns[..n];
      forall k | 0 <= k < |shorter| ensures shorter[k] == turns[k] && shorter[..k] == turns[..k] {}
      DueTurnComes(before, shorter, e, due, life, delay);
      OnlySleeps(before, turns, e, due, life, delay, n);
      DueExactly(e, turns[n - 1].now, due, life);
    }
  }

  // One pass of the loop body, up to where it goes round again or leaves.
  method OneTurn(before: seq<Action>, check: nat, wasPending: bool, turn: Turn)
      returns (log: seq<Action>, nextCheck: nat, reconnectPending: bool, over: bool)
    ensures Loop(log, nextCheck, reconnectPending, over) == TurnStep(Loop(before, check, wasPending, false), turn)
  {
    log, nextCheck, reconnectPending, over := before, check, wasPending, true;
    if turn.cancelled {
      return;
    }
    log := log + [Slept(nextCheck)];
    if !turn.generationCurrent {
      return;
    }
    if turn.server.None? {
      log := log + [ClearedGeneration];
      return;
    }
    if !turn.server.value.enabled || !turn.server.value.oauth {
      return;
    }
    if !reconnectPending {
      if turn.cached.None? {
        nextCheck, over := 30, false;
        return;
      }
      if !NeedsRefresh(turn.cached.value, turn.now) {
        nextCheck, over := NextCheck(turn.cached.value, turn.now), false;
        return;
      }
      if turn.serverAgain.None? || turn.serverAgain.value.url.None? {
        log := log + [ClearedGeneration];
        return;
      }
      log := log + [Exchanged(turn.exchange)];
      match turn.exchange {
        case Refreshed =>
        case InjectedToken =>
          nextCheck, over := 30, false;
          return;
        case TransientError =>
          nextCheck, over := 30, false;
          return;
        case _ =>
          log := log + [MarkedAuthRequired];
          return;
      }
    }
    log := log + [Reconnected(turn.reconnect)];
    nextCheck := 30;
    match turn.reconnect {
      case Ok => reconnectPending, over := false, false;
      case AuthFailed => log := log + [MarkedAuthRequired];
      case OtherError => reconnectPending, over := true, false;
    }
  }

  method RunRefreshLoop(turns: seq<Turn>) returns (log: seq<Action>)
    ensures log == After(turns).log
    ensures Disciplined(log) && EndsAtTerminal(log)
    ensures NoTerminal(log) || log[|log| - 1] == MarkedAuthRequired
  {
    EveryRunIsDisciplined(turns);
    log := [];
    var nextCheck, reconnectPending, i := 30, false, 0;
    while i < |turns|
      invariant i <= |turns|
      invariant Loop(log, nextCheck, reconnectPending, false) == After(turns[..i])
    {
      var over;
      assert turns[..i + 1][..i] == turns[..i];
      log, nextCheck, reconnectPending, over := OneTurn(log, nextCheck, reconnectPending, turns[i]);
      i := i + 1;
      if over {
        OverIsOver(turns, i);
        return;
      }
    }
    assert turns[..i] == turns;
  }
}
