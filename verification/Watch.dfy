/** The watch protocol as an interleaving of template watchers and change callbacks.

Every template has a watcher that alternates between WatchPrefix and processing; callbacks of
the Nacos client send tokens into a channel of bounded size.  The increment of the watcher
count is a load and a store, as nothing in the source makes it one step.  Which callbacks
fire, which subscriptions fail and when the stop signal comes are choices of the environment. */
module Watch {
  import opened Options

  const CHANNEL_SIZE := 10

  // Where a watcher is.  Loaded: it has read the count, when stores increments had been stored.
  datatype Pc =
    | Calling
    | Loaded(seen: nat, stores: nat)
    | Subscribing(left: nat)
    | Sleeping
    | Waiting
    | Returned(index: nat)

  // The watcher of a template with that many keys.
  datatype Watcher = Watcher(keys: nat, lastIndex: nat, pc: Pc)

  // A callback that runs has sent this many tokens; due says that it has found the count above
  // that number and is at the send, where it may block.
  datatype Callback = Callback(sent: nat, due: bool)

  // The history fields count what has happened: increments stored, subscriptions registered and
  // completed, tokens sent and taken, stop signals taken, processing runs started, and whether
  // an increment was stored although another had been stored since its load.
  datatype State = State(
    count: nat, channel: nat, watchers: seq<Watcher>, callbacks: seq<Callback>,
    stores: nat, registered: nat, completed: nat, sent: nat, taken: nat, stops: nat, runs: nat, stale: bool)

  datatype Action =
    | Call(w: nat)
    | Store(w: nat)
    | Subscribe(w: nat, ok: bool)
    | Take(w: nat)
    | Stop(w: nat)
    | Run(w: nat)
    | Wake(w: nat)
    | Fire
    | Test(c: nat)
    | Send(c: nat)
    | Finish(c: nat)

  // One watcher for each template; keys has the numbers of their keys.
  function Start(keys: seq<nat>): State {
    State(0, 0, seq(|keys|, i requires 0 <= i < |keys| => Watcher(keys[i], 0, Calling)), [], 0, 0, 0, 0, 0, 0, 0, false)
  }

  function At(s: State, w: nat, pc: Pc): State
    requires w < |s.watchers|
  {
    s.(watchers := s.watchers[w := s.watchers[w].(pc := pc)])
  }

  // The step of a watcher in its current place.
  function WatcherStep(s: State, w: nat, a: Action): Option<State>
    requires w < |s.watchers|
  {
    match (s.watchers[w].pc, a)
    // WatchPrefix branches on the index it is given
    case (Calling, Call(_)) =>
      Some(At(s, w, if s.watchers[w].lastIndex == 0 then Loaded(s.count, s.stores) else Waiting))
    case (Loaded(seen, stores), Store(_)) =>
      Some(At(s, w, Subscribing(s.watchers[w].keys)).(count := seen + 1, stores := s.stores + 1, stale := s.stale
          || stores != s.stores))
    case (Subscribing(left), Subscribe(_, ok)) =>
      if left == 0 then Some(At(s, w, Returned(1)).(completed := s.completed + 1))
      else if ok then Some(At(s, w, Subscribing(left - 1)).(registered := s.registered + 1))
      else Some(At(s, w, Sleeping))
    case (Sleeping, Wake(_)) => Some(At(s, w, Calling))
    case (Waiting, Take(_)) =>
      if s.channel == 0 then None
      else Some(At(s, w, Returned(s.watchers[w].lastIndex)).(channel := s.channel - 1, taken := s.taken + 1))
    case (Waiting, Stop(_)) => Some(At(s, w, Returned(s.watchers[w].lastIndex)).(stops := s.stops + 1))
    // monitorPrefix keeps the index, processes the template and goes on
    case (Returned(index), Run(_)) =>
      Some(s.(watchers := s.watchers[w := Watcher(s.watchers[w].keys, index, Calling)], runs := s.runs + 1))
    case _ => None
  }

  function Perform(s: State, a: Action): Option<State> {
    match a
    case Fire => if s.registered == 0 then None else Some(s.(callbacks := s.callbacks + [Callback(0, false)]))
    // the loop of a callback: the count is tested first, and may change before the send
    case Test(c) =>
      if c < |s.callbacks| && !s.callbacks[c].due && s.callbacks[c].sent < s.count then
        Some(s.(callbacks := s.callbacks[c := s.callbacks[c].(due := true)]))
      else None
    case Send(c) =>
      if c < |s.callbacks| && s.callbacks[c].due && s.channel < CHANNEL_SIZE then
        Some(s.(callbacks := s.callbacks[c := Callback(s.callbacks[c].sent + 1, false)], channel := s.channel + 1,
            sent := s.sent + 1))
      else None
    case Finish(c) =>
      if c < |s.callbacks| && !s.callbacks[c].due && s.callbacks[c].sent >= s.count then
        Some(s.(callbacks := s.callbacks[..c] + s.callbacks[c + 1..]))
      else None
    case _ =>
      if a.w < |s.watchers| then WatcherStep(s, a.w, a) else None
  }

  // A run is a list of actions, each possible when its turn comes.
  function RunAll(s: State, actions: seq<Action>): Option<State>
    decreases |actions|
  {
    if actions == [] then Some(s) else
      match Perform(s, actions[0])
      case Some(s') => RunAll(s', actions[1..])
      case None => None
  }

  // ---- counting watchers ----

  function Tally(ws: seq<Watcher>, f: Watcher -> bool): nat {
    if ws == [] then 0 else (if f(ws[0]) then 1 else 0) + Tally(ws[1..], f)
  }

  lemma {:induction false} TallyUpdate(ws: seq<Watcher>, f: Watcher -> bool, i: nat, w: Watcher)
    requires i < |ws|
    ensures Tally(ws[i := w], f) == Tally(ws, f) - (if f(ws[i]) then 1 else 0) + (if f(w) then 1 else 0)
  {
    if i > 0 {
      TallyUpdate(ws[1..], f, i - 1, w);
      assert ws[i := w][1..] == ws[1..][i - 1 := w];
    } else {
      assert ws[i := w][1..] == ws[1..];
    }
  }

  lemma {:induction false} TallyNone(ws: seq<Watcher>, f: Watcher -> bool)
    requires forall i :: 0 <= i < |ws| ==> !f(ws[i])
    ensures Tally(ws, f) == 0
  {
    if ws != [] {
      TallyNone(ws[1..], f);
    }
  }

  // Between waking up and running.
  const HasReturned: Watcher -> bool := (w: Watcher) => w.pc.Returned?

  // The subscription of the template is complete.
  const IsSubscribed: Watcher -> bool := (w: Watcher) => w.lastIndex == 1 || w.pc.Returned?

  // The increment of the current round of WatchPrefix is stored, or was in an earlier one.
  const HasStored: Watcher -> bool := (w: Watcher) => w.lastIndex == 1 || w.pc.Returned? || w.pc.Subscribing?

  // ---- the invariant ----

  predicate WatcherOk(s: State, w: Watcher) {
    && w.lastIndex <= 1
    && (w.pc.Returned? ==> w.pc.index == 1)
    && (w.pc.Waiting? ==> w.lastIndex == 1)
    && (w.pc.Loaded? || w.pc.Subscribing? || w.pc.Sleeping? ==> w.lastIndex == 0)
    && (w.pc.Loaded? ==> w.pc.seen <= w.pc.stores <= s.stores && (w.pc.stores == s.stores ==> w.pc.seen == s.count))
  }

  predicate Inv(s: State) {
    && s.channel <= CHANNEL_SIZE
    && s.sent == s.taken + s.channel
    && s.completed + s.taken + s.stops == s.runs + Tally(s.watchers, HasReturned)
    && s.count <= s.stores && (s.count == s.stores <==> !s.stale)
    && Tally(s.watchers, HasStored) <= s.stores
    && (forall i :: 0 <= i < |s.watchers| ==> WatcherOk(s, s.watchers[i]))
    && (forall c :: 0 <= c < |s.callbacks| ==> CallbackOk(s, s.callbacks[c]))
  }

  // A callback sends at most one token for every increment.
  predicate CallbackOk(s: State, c: Callback) {
    c.sent + (if c.due then 1 else 0) <= s.stores
  }

  lemma StartInv(keys: seq<nat>)
    ensures Inv(Start(keys))
  {
    TallyNone(Start(keys).watchers, HasReturned);
    TallyNone(Start(keys).watchers, HasStored);
  }

  // The step of a watcher changes its own entry and the counters.
  lemma StepChanges(s: State, w: nat, a: Action)
    requires w < |s.watchers| && WatcherOk(s, s.watchers[w]) && s.count <= s.stores
    requires (s.count == s.stores <==> !s.stale)
    requires WatcherStep(s, w, a).Some?
    ensures var s', x, y := WatcherStep(s, w, a).value, s.watchers[w], WatcherStep(s, w, a).value.watchers[w];
            && s'.watchers == s.watchers[w := y] && WatcherOk(s', y)
            && s.stores <= s'.stores && (s.stores == s'.stores ==> s.count == s'.count)
            && s'.count <= s'.stores && (s'.count == s'.stores <==> !s'.stale) && s'.callbacks == s.callbacks
            && s'.sent == s.sent && s'.taken + s'.channel == s.taken + s.channel && s'.channel <= s.channel
            && s'.completed + s'.taken + s'.stops - s'.runs - (if y.pc.Returned? then 1 else 0)
               == s.completed + s.taken + s.stops - s.runs - (if x.pc.Returned? then 1 else 0)
            && (if HasStored(y) then 1 else 0) - s'.stores <= (if HasStored(x) then 1 else 0) - s.stores
  {
  }

  lemma OkStays(s: State, s': State, w: Watcher)
    requires WatcherOk(s, w) && s.stores <= s'.stores && (s.stores == s'.stores ==> s.count == s'.count)
    ensures WatcherOk(s', w)
  {
  }

  lemma CallbacksStay(s: State, s': State)
    requires s.stores <= s'.stores && s'.callbacks == s.callbacks
    requires forall c :: 0 <= c < |s.callbacks| ==> CallbackOk(s, s.callbacks[c])
    ensures forall c :: 0 <= c < |s'.callbacks| ==> CallbackOk(s', s'.callbacks[c])
  {
    forall c | 0 <= c < |s'.callbacks|
      ensures CallbackOk(s', s'.callbacks[c])
    {
      assert CallbackOk(s, s.callbacks[c]);
    }
  }

  lemma StepInv(s: State, a: Action)
    requires Inv(s) && Perform(s, a).Some?
    ensures Inv(Perform(s, a).value)
  {
    if !a.Fire? && !a.Test? && !a.Send? && !a.Finish? {
      var s' := Perform(s, a).value;
      assert WatcherOk(s, s.watchers[a.w]);
      StepChanges(s, a.w, a);
      CallbacksStay(s, s');
      hide WatcherStep, WatcherOk, CallbackOk;
      TallyUpdate(s.watchers, HasReturned, a.w, s'.watchers[a.w]);
      TallyUpdate(s.watchers, HasStored, a.w, s'.watchers[a.w]);
      forall i | 0 <= i < |s'.watchers|
        ensures WatcherOk(s', s'.watchers[i])
      {
        if i != a.w {
          OkStays(s, s', s.watchers[i]);
        }
      }
    } else {
      CallbackStep(s, a);
    }
  }

  lemma CallbackStep(s: State, a: Action)
    requires (a.Fire? || a.Test? || a.Send? || a.Finish?) && Perform(s, a).Some? && s.count <= s.stores
    requires forall c :: 0 <= c < |s.callbacks| ==> CallbackOk(s, s.callbacks[c])
    ensures var s' := Perform(s, a).value;
            && s'.stores == s.stores
            && forall c :: 0 <= c < |s'.callbacks| ==> CallbackOk(s', s'.callbacks[c])
  {
    var s' := Perform(s, a).value;
    forall c | 0 <= c < |s'.callbacks|
      ensures CallbackOk(s', s'.callbacks[c])
    {
      if a.Finish? && c >= a.c {
        assert s'.callbacks[c] == s.callbacks[c + 1];
        assert CallbackOk(s, s.callbacks[c + 1]);
      } else if c < |s.callbacks| {
        assert CallbackOk(s, s.callbacks[c]);
      }
    }
  }

  lemma {:induction false} RunInv(s: State, actions: seq<Action>)
    requires Inv(s) && RunAll(s, actions).Some?
    ensures Inv(RunAll(s, actions).value)
    decreases |actions|
  {
    if actions != [] {
      StepInv(s, actions[0]);
      RunInv(Perform(s, actions[0]).value, actions[1..]);
    }
  }

  // ---- main results ----

  // The state of the watchers after some actions.
  predicate Reachable(s: State, keys: seq<nat>, actions: seq<Action>) {
    RunAll(Start(keys), actions) == Some(s)
  }

  /** In every interleaving, the tokens sent are those taken and those in the channel, which
      never holds more than its size. */
  lemma TokensConserved(s: State, keys: seq<nat>, actions: seq<Action>)
    requires Reachable(s, keys, actions)
    ensures s.sent == s.taken + s.channel && s.channel <= 10
  {
    StartInv(keys);
    RunInv(Start(keys), actions);
  }

  /** The processing runs started are the completed subscriptions, the tokens taken and the stop
      signals taken, but for the watchers between waking up and running. */
  lemma RunsAccounted(s: State, keys: seq<nat>, actions: seq<Action>)
    requires Reachable(s, keys, actions)
    ensures s.runs + Tally(s.watchers, HasReturned) == s.completed + s.taken + s.stops
  {
    StartInv(keys);
    RunInv(Start(keys), actions);
  }

  /** A callback never sends more tokens than there are increments, whatever the count was when it
      tested it. */
  lemma SendsBounded(s: State, keys: seq<nat>, actions: seq<Action>, c: nat)
    requires Reachable(s, keys, actions) && c < |s.callbacks|
    ensures s.callbacks[c].sent <= s.stores
  {
    StartInv(keys);
    RunInv(Start(keys), actions);
    assert CallbackOk(s, s.callbacks[c]);
  }

  lemma {:induction false} TallyImplies(ws: seq<Watcher>, f: Watcher -> bool, g: Watcher -> bool)
    requires forall w :: f(w) ==> g(w)
    ensures Tally(ws, f) <= Tally(ws, g)
  {
    if ws != [] {
      TallyImplies(ws[1..], f, g);
    }
  }

  /** The count is the number of increments exactly if no increment was stored over another;
      then it is never below the number of subscribed templates. */
  lemma CountExact(s: State, keys: seq<nat>, actions: seq<Action>)
    requires Reachable(s, keys, actions)
    ensures s.count <= s.stores && (s.count == s.stores <==> !s.stale)
    ensures !s.stale ==> Tally(s.watchers, IsSubscribed) <= s.count
  {
    StartInv(keys);
    RunInv(Start(keys), actions);
    TallyImplies(s.watchers, IsSubscribed, HasStored);
  }

  // The index of every watcher is kept, or goes from 0 to 1.
  predicate IndexesKept(s: State, t: State) {
    && |s.watchers| == |t.watchers|
    && forall i :: 0 <= i < |s.watchers| ==>
         t.watchers[i].lastIndex == s.watchers[i].lastIndex
             || (s.watchers[i].lastIndex == 0 && t.watchers[i].lastIndex == 1)
  }

  lemma StepKeepsIndexes(s: State, a: Action)
    requires Inv(s) && Perform(s, a).Some?
    ensures IndexesKept(s, Perform(s, a).value)
  {
    if !a.Fire? && !a.Test? && !a.Send? && !a.Finish? {
      assert WatcherOk(s, s.watchers[a.w]);
    }
  }

  /** Every template's index goes from 0 to 1 once and stays. */
  lemma {:induction false} IndexesStay(s: State, actions: seq<Action>)
    requires Inv(s) && RunAll(s, actions).Some?
    ensures IndexesKept(s, RunAll(s, actions).value)
    ensures forall i :: 0 <= i < |s.watchers| && s.watchers[i].lastIndex == 1 ==>
        RunAll(s, actions).value.watchers[i].lastIndex == 1
    decreases |actions|
  {
    if actions != [] {
      var s1 := Perform(s, actions[0]).value;
      StepInv(s, actions[0]);
      StepKeepsIndexes(s, actions[0]);
      IndexesStay(s1, actions[1..]);
      forall i | 0 <= i < |s.watchers|
        ensures RunAll(s1, actions[1..]).value.watchers[i].lastIndex == s.watchers[i].lastIndex
             || (s.watchers[i].lastIndex == 0 && RunAll(s1, actions[1..]).value.watchers[i].lastIndex == 1)
      {
        assert s1.watchers[i].lastIndex == s.watchers[i].lastIndex || s1.watchers[i].lastIndex == 1;
      }
    } else {
      forall i | 0 <= i < |s.watchers|
        ensures WatcherOk(s, s.watchers[i])
      {
      }
    }
  }

  // ---- what a change causes ----

  function Fires(actions: seq<Action>): nat {
    if actions == [] then 0 else (if actions[0].Fire? then 1 else 0) + Fires(actions[1..])
  }

  // What the callbacks have yet to send when the count stays at n.
  function Owed(cs: seq<Callback>, n: nat): int {
    if cs == [] then 0 else n - cs[0].sent + Owed(cs[1..], n)
  }

  lemma {:induction false} OwedUpdate(cs: seq<Callback>, n: nat, i: nat, c: Callback)
    requires i < |cs|
    ensures Owed(cs[i := c], n) == Owed(cs, n) + cs[i].sent - c.sent
  {
    if i == 0 {
      assert cs[i := c][1..] == cs[1..];
    } else {
      assert cs[i := c][1..] == cs[1..][i - 1 := c];
      OwedUpdate(cs[1..], n, i - 1, c);
    }
  }

  lemma {:induction false} OwedSplit(a: seq<Callback>, b: seq<Callback>, n: nat)
    ensures Owed(a + b, n) == Owed(a, n) + Owed(b, n)
  {
    if a == [] {
      assert a + b == b;
    } else {
      assert (a + b)[1..] == a[1..] + b;
      OwedSplit(a[1..], b, n);
    }
  }

  predicate WithinCount(s: State) {
    forall c :: 0 <= c < |s.callbacks| ==> s.callbacks[c].sent + (if s.callbacks[c].due then 1 else 0) <= s.count
  }

  // One action that stores no increment: the tokens sent and still owed grow with a change only.
  lemma OwedStep(s: State, a: Action)
    requires Perform(s, a).Some? && !a.Store? && WithinCount(s)
    ensures var s' := Perform(s, a).value;
            && s'.count == s.count && WithinCount(s')
            && s'.sent + Owed(s'.callbacks, s.count)
               == s.sent + Owed(s.callbacks, s.count) + if a.Fire? then s.count else 0
  {
    hide Owed;
    match a
    case Fire => FireOwed(s);
    case Test(c) => OwedUpdate(s.callbacks, s.count, c, s.callbacks[c].(due := true));
    case Send(c) => OwedUpdate(s.callbacks, s.count, c, Callback(s.callbacks[c].sent + 1, false));
    case Finish(c) => FinishOwed(s, c);
    case _ =>
  }

  lemma FireOwed(s: State)
    ensures Owed(s.callbacks + [Callback(0, false)], s.count) == Owed(s.callbacks, s.count) + s.count
  {
    OwedSplit(s.callbacks, [Callback(0, false)], s.count);
    assert [Callback(0, false)][1..] == [];
  }

  // A callback that has sent as many tokens as the count owes nothing.
  lemma FinishOwed(s: State, c: nat)
    requires c < |s.callbacks| && WithinCount(s) && s.callbacks[c].sent >= s.count && !s.callbacks[c].due
    ensures var rest := s.callbacks[..c] + s.callbacks[c + 1..];
            && Owed(rest, s.count) == Owed(s.callbacks, s.count)
            && forall d :: 0 <= d < |rest| ==> rest[d].sent + (if rest[d].due then 1 else 0) <= s.count
  {
    var cs := s.callbacks;
    assert cs == cs[..c] + ([cs[c]] + cs[c + 1..]);
    OwedSplit(cs[..c], [cs[c]] + cs[c + 1..], s.count);
    OwedSplit([cs[c]], cs[c + 1..], s.count);
    OwedSplit(cs[..c], cs[c + 1..], s.count);
    assert [cs[c]][1..] == [];
    var rest := cs[..c] + cs[c + 1..];
    forall d | 0 <= d < |rest|
      ensures rest[d].sent + (if rest[d].due then 1 else 0) <= s.count
    {
      assert rest[d] == cs[if d < c then d else d + 1];
    }
  }

  predicate NoStores(actions: seq<Action>) {
    forall i :: 0 <= i < |actions| ==> !actions[i].Store?
  }

  lemma OneMoreFire(n: nat, fires: nat)
    ensures n * (1 + fires) == n + n * fires && n * (0 + fires) == n * fires
  {
  }

  lemma {:induction false} OwedRun(s: State, actions: seq<Action>)
    requires RunAll(s, actions).Some? && NoStores(actions) && WithinCount(s)
    ensures var s' := RunAll(s, actions).value;
            s'.sent + Owed(s'.callbacks, s.count) == s.sent + Owed(s.callbacks, s.count) + s.count * Fires(actions)
    decreases |actions|
  {
    if actions != [] {
      hide Perform, WithinCount, Owed;
      OwedStep(s, actions[0]);
      OwedRun(Perform(s, actions[0]).value, actions[1..]);
      OneMoreFire(s.count, Fires(actions[1..]));
    }
  }

  /** When all templates have stored their increments, every change causes exactly as many tokens
      as the count says, once its callback has come to its end. */
  lemma ChangesServed(s: State, actions: seq<Action>)
    requires RunAll(s, actions).Some? && NoStores(actions)
    requires s.callbacks == [] && RunAll(s, actions).value.callbacks == []
    ensures RunAll(s, actions).value.sent == s.sent + s.count * Fires(actions)
  {
    OwedRun(s, actions);
  }

  // ---- subscriptions ----

  // How many keys of the template are registered for sure.
  function Progress(w: Watcher): nat {
    if w.lastIndex == 1 || w.pc.Returned? then w.keys
    else if w.pc.Subscribing? && w.pc.left <= w.keys then w.keys - w.pc.left
    else 0
  }

  function TotalProgress(ws: seq<Watcher>): nat {
    if ws == [] then 0 else Progress(ws[0]) + TotalProgress(ws[1..])
  }

  lemma {:induction false} ProgressUpdate(ws: seq<Watcher>, i: nat, w: Watcher)
    requires i < |ws|
    ensures TotalProgress(ws[i := w]) == TotalProgress(ws) - Progress(ws[i]) + Progress(w)
  {
    if i > 0 {
      ProgressUpdate(ws[1..], i - 1, w);
      assert ws[i := w][1..] == ws[1..][i - 1 := w];
    } else {
      assert ws[i := w][1..] == ws[1..];
    }
  }

  predicate Registers(s: State) {
    && TotalProgress(s.watchers) <= s.registered
    && (forall i :: 0 <= i < |s.watchers| && s.watchers[i].pc.Subscribing? ==>
          s.watchers[i].pc.left <= s.watchers[i].keys)
    && (s.sent > 0 || s.callbacks != [] ==> s.registered > 0)
  }

  lemma {:induction false} NoProgress(ws: seq<Watcher>)
    requires forall i :: 0 <= i < |ws| ==> Progress(ws[i]) == 0
    ensures TotalProgress(ws) == 0
  {
    if ws != [] {
      NoProgress(ws[1..]);
    }
  }

  lemma StepRegisters(s: State, a: Action)
    requires Registers(s) && Inv(s) && Perform(s, a).Some?
    ensures Registers(Perform(s, a).value)
  {
    hide Tally, CallbackOk, TotalProgress;
    if !a.Fire? && !a.Test? && !a.Send? && !a.Finish? {
      assert WatcherOk(s, s.watchers[a.w]);
      ProgressUpdate(s.watchers, a.w, Perform(s, a).value.watchers[a.w]);
    }
  }

  lemma {:induction false} RunRegisters(s: State, actions: seq<Action>)
    requires Registers(s) && Inv(s) && RunAll(s, actions).Some?
    ensures Registers(RunAll(s, actions).value)
    decreases |actions|
  {
    if actions != [] {
      StepInv(s, actions[0]);
      StepRegisters(s, actions[0]);
      RunRegisters(Perform(s, actions[0]).value, actions[1..]);
    }
  }

  /** In every reachable state all keys of the subscribed templates are registered, and those that
      the others have come to; no callback runs and no token is sent before a key is. */
  lemma KeysRegistered(s: State, keys: seq<nat>, actions: seq<Action>)
    requires Reachable(s, keys, actions)
    ensures TotalProgress(s.watchers) <= s.registered
    ensures s.sent > 0 || s.callbacks != [] ==> s.registered > 0
  {
    StartInv(keys);
    NoProgress(Start(keys).watchers);
    RunRegisters(Start(keys), actions);
  }

  /** A watcher can always go on, unless it waits for a token and there is none. */
  lemma WatchersMove(s: State, w: nat) returns (a: Action)
    requires w < |s.watchers| && !(s.watchers[w].pc.Waiting? && s.channel == 0)
    ensures Perform(s, a).Some? && !a.Stop? && !a.Fire? && !a.Test? && !a.Send? && !a.Finish? && a.w == w
    ensures !a.Subscribe? || a.ok
  {
    a := match s.watchers[w].pc
         case Calling => Call(w)
         case Loaded(_, _) => Store(w)
         case Subscribing(_) => Subscribe(w, true)
         case Sleeping => Wake(w)
         case Waiting => Take(w)
         case Returned(_) => Run(w);
  }

  /** A callback can always go on, unless it is at the send and the channel is full. */
  lemma CallbacksMove(s: State, c: nat) returns (a: Action)
    requires c < |s.callbacks| && !(s.callbacks[c].due && s.channel == CHANNEL_SIZE) && s.channel <= CHANNEL_SIZE
    ensures Perform(s, a).Some? && a in {Test(c), Send(c), Finish(c)}
  {
    a := if s.callbacks[c].due then Send(c) else if s.callbacks[c].sent < s.count then Test(c) else Finish(c);
  }

  /** Two watchers that start together can lose an increment: two templates are subscribed, and
      the count is one. */
  lemma IncrementLost()
    ensures RunAll(Start([0, 0]), [Call(0), Call(1), Store(0), Store(1), Subscribe(0, true), Subscribe(1, true)]).Some?
    ensures var s := RunAll(Start([0, 0]), [Call(0), Call(1), Store(0), Store(1), Subscribe(0, true),
        Subscribe(1, true)]).value;
            s.count == 1 && Tally(s.watchers, IsSubscribed) == 2
  {
    var idle := Watcher(0, 0, Calling);
    var s0 := Start([0, 0]);
    assert s0.watchers == [idle, idle];
    var l := Watcher(0, 0, Loaded(0, 0));
    var b := Watcher(0, 0, Subscribing(0));
    var r := Watcher(0, 0, Returned(1));
    var s1 := s0.(watchers := [l, idle]);
    var s2 := s0.(watchers := [l, l]);
    var s3 := s0.(watchers := [b, l], count := 1, stores := 1);
    var s4 := s0.(watchers := [b, b], count := 1, stores := 2, stale := true);
    var s5 := s4.(watchers := [r, b], completed := 1);
    var s6 := s4.(watchers := [r, r], completed := 2);
    assert s0.watchers[0 := l] == s1.watchers && s1.watchers[1 := l] == s2.watchers;
    assert s2.watchers[0 := b] == s3.watchers && s3.watchers[1 := b] == s4.watchers;
    assert s4.watchers[0 := r] == s5.watchers && s5.watchers[1 := r] == s6.watchers;
    var rest := [Subscribe(0, true), Subscribe(1, true)];
    RunTwo(s4, Subscribe(0, true), Subscribe(1, true), [], s5, s6);
    RunTwo(s2, Store(0), Store(1), rest, s3, s4);
    RunTwo(s0, Call(0), Call(1), [Store(0), Store(1)] + rest, s1, s2);
    assert [Call(0), Call(1)] + ([Store(0), Store(1)] + rest)
        == [Call(0), Call(1), Store(0), Store(1), Subscribe(0, true), Subscribe(1, true)];
    TallyTwo(r, IsSubscribed);
  }

  lemma TallyTwo(w: Watcher, f: Watcher -> bool)
    requires f(w)
    ensures Tally([w, w], f) == 2
  {
    assert [w, w][1..] == [w] && [w][1..] == [];
    assert Tally([w], f) == 1;
  }

  lemma RunTwo(s: State, a: Action, b: Action, rest: seq<Action>, s1: State, s2: State)
    requires Perform(s, a) == Some(s1) && Perform(s1, b) == Some(s2)
    ensures RunAll(s, [a, b] + rest) == RunAll(s2, rest)
  {
    assert ([a, b] + rest)[1..] == [b] + rest && ([b] + rest)[1..] == rest;
  }
}
