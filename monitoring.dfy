/**
 * The monitoring registry and its poll cycle: a map from user to the one
 * stay that user watches, the immediate check that adds an entry, the stop
 * and status commands, one pass of the background poller, and the chat
 * message handler that drives them. Outgoing pushes are appended to a log;
 * their delivery is not modelled.
 */
module Monitoring {
  import opened Options
  import opened Text
  import opened RoomChecker
  import opened Commands

  type UserId = string

  /** One registry entry: the stay being watched and whether it is still watched. */
  datatype Task = Task(checkin: string, checkout: string, adults: int, active: bool)

  /** What a push tells the user; the wording of the texts is not modelled. */
  datatype Message =
    | Acknowledged                                                        // the reply acknowledging any message
    | HelpText
    | Running(checkin: string, checkout: string, adults: int)             // status: monitoring is on
    | NoTask                                                              // status or stop with nothing to report
    | Stopped
    | FormatError(reason: Rejection)
    | AvailableNow(checkin: string, checkout: string, adults: int, url: string)  // the immediate check found a room
    | Watching(checkin: string, checkout: string, adults: int)                   // the immediate check found none
    | Found(checkin: string, checkout: string, adults: int, url: string)         // the poller's notification

  datatype Push = Push(to: UserId, message: Message)

  /**
   * The registry's contents: its entries, and their keys in the order they
   * were first inserted, which is the order a pass visits them in.
   */
  datatype Registry = Registry(order: seq<UserId>, tasks: map<UserId, Task>)

  predicate Distinct(s: seq<UserId>) {
    forall i, j :: 0 <= i < j < |s| ==> s[i] != s[j]
  }

  /** The insertion order lists every key exactly once. */
  predicate WellFormed(r: Registry) {
    && Distinct(r.order)
    && (forall u :: u in r.order ==> u in r.tasks)
    && (forall u :: u in r.tasks ==> u in r.order)
  }

  /** Well-formedness depends only on the insertion order and the set of keys. */
  lemma SameKeysWellFormed(r: Registry, r': Registry)
    requires WellFormed(r) && r'.order == r.order && r'.tasks.Keys == r.tasks.Keys
    ensures WellFormed(r')
  {
  }

  /** Monitoring is running for a user: an entry exists and is active. */
  predicate IsRunning(tasks: map<UserId, Task>, user: UserId) {
    user in tasks && tasks[user].active
  }

  // ---------------------------------------------------------------------------
  // The operations on registry values
  // ---------------------------------------------------------------------------

  /** `monitoring_tasks[user] = task`: overwrites in place, or appends a new key. */
  function Store(r: Registry, user: UserId, task: Task): (r': Registry)
    ensures r'.tasks == r.tasks[user := task]
    ensures user in r.tasks ==> r'.order == r.order
    ensures user !in r.tasks ==> r'.order == r.order + [user]
    ensures WellFormed(r) ==> WellFormed(r')
  {
    Registry(if user in r.tasks then r.order else r.order + [user], r.tasks[user := task])
  }

  /**
   * The immediate check of a new request (`process_room_query_background`):
   * an available room is reported and the registry is left alone; otherwise
   * the user's entry becomes the request, active, replacing any earlier one.
   */
  function QueryRoom(r: Registry, fetch: string -> Response, user: UserId,
                     checkin: string, checkout: string, adults: int): (result: (Registry, seq<Push>))
    ensures |result.1| == 1 && result.1[0].to == user
    ensures CheckRoomByDates(fetch, checkin, checkout, adults).available ==> result.0 == r
    ensures !CheckRoomByDates(fetch, checkin, checkout, adults).available ==>
      user in result.0.tasks && result.0.tasks[user] == Task(checkin, checkout, adults, true)
    ensures forall u :: u != user ==>
      (u in result.0.tasks <==> u in r.tasks) && (u in r.tasks ==> result.0.tasks[u] == r.tasks[u])
  {
    var result := CheckRoomByDates(fetch, checkin, checkout, adults);
    if result.available then
      (r, [Push(user, AvailableNow(checkin, checkout, adults, result.url))])
    else
      (Store(r, user, Task(checkin, checkout, adults, true)), [Push(user, Watching(checkin, checkout, adults))])
  }

  /** `stop_monitoring`: clears the user's `active` flag, if the user has an entry. */
  function StopTask(r: Registry, user: UserId): (result: (Registry, seq<Push>))
    ensures result.0.order == r.order && result.0.tasks.Keys == r.tasks.Keys
    ensures user in r.tasks ==> !result.0.tasks[user].active && SameRequest(result.0.tasks[user], r.tasks[user])
    ensures user !in r.tasks ==> result.0 == r
    ensures forall u :: u in r.tasks && u != user ==> result.0.tasks[u] == r.tasks[u]
    ensures result.1 == [Push(user, if user in r.tasks then Stopped else NoTask)]
  {
    if user in r.tasks then
      (Registry(r.order, r.tasks[user := r.tasks[user].(active := false)]), [Push(user, Stopped)])
    else
      (r, [Push(user, NoTask)])
  }

  /** `send_status`: the watched stay while monitoring runs, otherwise "no task". */
  function StatusReply(tasks: map<UserId, Task>, user: UserId): (m: Message)
    ensures m.Running? <==> IsRunning(tasks, user)
    ensures m.Running? ==> m == Running(tasks[user].checkin, tasks[user].checkout, tasks[user].adults)
    ensures !m.Running? ==> m == NoTask
  {
    if user in tasks && tasks[user].active then
      var t := tasks[user];
      Running(t.checkin, t.checkout, t.adults)
    else NoTask
  }

  /** The poller's verdict on one entry: inactive entries are skipped, active ones are checked. */
  predicate FoundRoom(task: Task, fetch: string -> Response) {
    task.active && CheckRoomByDates(fetch, task.checkin, task.checkout, task.adults).available
  }

  /** One entry after the poller visits it: deactivated exactly when its room was found. */
  function AfterPoll(task: Task, fetch: string -> Response): (t: Task)
    ensures SameRequest(t, task)
    ensures t.active <==> task.active && !CheckRoomByDates(fetch, task.checkin, task.checkout, task.adults).available
  {
    if FoundRoom(task, fetch) then task.(active := false) else task
  }

  /** The notification (`send_notification`) the poller sends for one entry, if any. */
  function PollNotes(user: UserId, task: Task, fetch: string -> Response): (notes: seq<Push>)
    ensures |notes| <= 1
    ensures notes != [] <==> task.active && CheckRoomByDates(fetch, task.checkin, task.checkout, task.adults).available
    ensures notes != [] ==> notes[0].to == user && notes[0].message.Found?
  {
    if FoundRoom(task, fetch) then
      var url := CheckRoomByDates(fetch, task.checkin, task.checkout, task.adults).url;
      [Push(user, Found(task.checkin, task.checkout, task.adults, url))]
    else []
  }

  /** The entries after one pass of `monitor_rooms`. */
  function AfterCycle(tasks: map<UserId, Task>, fetch: string -> Response): (tasks': map<UserId, Task>)
    ensures tasks'.Keys == tasks.Keys
  {
    map u | u in tasks :: AfterPoll(tasks[u], fetch)
  }

  /**
   * What a pass does to each entry: the stay is kept, and the entry stays
   * active exactly when it was active and its room was not found.
   */
  lemma CycleEntries(tasks: map<UserId, Task>, fetch: string -> Response, u: UserId)
    requires u in tasks
    ensures var t, t' := tasks[u], AfterCycle(tasks, fetch)[u];
      && SameRequest(t', t)
      && (t'.active <==> t.active && !CheckRoomByDates(fetch, t.checkin, t.checkout, t.adults).available)
  {
  }

  /** `list(monitoring_tasks.items())`: the entries, in insertion order. */
  function Items(order: seq<UserId>, tasks: map<UserId, Task>): (items: seq<(UserId, Task)>)
    requires forall u :: u in order ==> u in tasks
    ensures |items| == |order|
    ensures forall k :: 0 <= k < |order| ==> items[k] == (order[k], tasks[order[k]])
  {
    seq(|order|, k requires 0 <= k < |order| => (order[k], tasks[order[k]]))
  }

  /** The notifications of a pass over `items`, in order. */
  function CycleLog(items: seq<(UserId, Task)>, fetch: string -> Response): seq<Push> {
    if items == [] then []
    else
      var user, task := items[|items| - 1].0, items[|items| - 1].1;
      CycleLog(items[..|items| - 1], fetch) + PollNotes(user, task, fetch)
  }

  /**
   * The entries after a pass has visited `items`: each visit deactivates the
   * entry when the room of the task it was handed is found.
   */
  function PollPrefix(tasks: map<UserId, Task>, items: seq<(UserId, Task)>, fetch: string -> Response): map<UserId, Task> {
    if items == [] then tasks
    else
      var user, task := items[|items| - 1].0, items[|items| - 1].1;
      var visited := PollPrefix(tasks, items[..|items| - 1], fetch);
      if FoundRoom(task, fetch) then visited[user := task.(active := false)] else visited
  }

  /** A snapshot of `tasks`: every item is an entry of `tasks`, and no user occurs twice. */
  predicate IsSnapshot(items: seq<(UserId, Task)>, tasks: map<UserId, Task>) {
    && (forall j :: 0 <= j < |items| ==> items[j].0 in tasks && items[j].1 == tasks[items[j].0])
    && (forall i, j :: 0 <= i < j < |items| ==> items[i].0 != items[j].0)
  }

  /** The entries of a well-formed registry, in insertion order, are a snapshot of it. */
  lemma ItemsSnapshot(r: Registry)
    requires WellFormed(r)
    ensures IsSnapshot(Items(r.order, r.tasks), r.tasks)
  {
  }

  /**
   * Over a snapshot, where no user is visited twice, the first `n` entries
   * are polled and the others are untouched.
   */
  lemma {:induction false} PollPrefixSpec(tasks: map<UserId, Task>, items: seq<(UserId, Task)>, n: nat, k: nat, fetch: string -> Response)
    requires IsSnapshot(items, tasks) && n <= |items| && k < |items|
    ensures var tasks', u := PollPrefix(tasks, items[..n], fetch), items[k].0;
      u in tasks' && tasks'[u] == if k < n then AfterPoll(tasks[u], fetch) else tasks[u]
  {
    if n > 0 {
      PassStep(items, n - 1, tasks, fetch);
      PollPrefixSpec(tasks, items, n - 1, k, fetch);
      if k != n - 1 {
        assert items[k].0 != items[n - 1].0;
      }
    }
  }

  /** The visit of the `i`-th item extends the pass over the items before it. */
  lemma PassStep(items: seq<(UserId, Task)>, i: nat, tasks: map<UserId, Task>, fetch: string -> Response)
    requires i < |items|
    ensures var user, task := items[i].0, items[i].1;
      var visited := PollPrefix(tasks, items[..i], fetch);
      PollPrefix(tasks, items[..i + 1], fetch)
        == if FoundRoom(task, fetch) then visited[user := task.(active := false)] else visited
    ensures CycleLog(items[..i + 1], fetch) == CycleLog(items[..i], fetch) + PollNotes(items[i].0, items[i].1, fetch)
  {
    assert items[..i + 1][..i] == items[..i];
  }

  /** A pass that visits every entry of a well-formed registry gives `AfterCycle`. */
  lemma PollPrefixAll(r: Registry, fetch: string -> Response)
    requires WellFormed(r)
    ensures PollPrefix(r.tasks, Items(r.order, r.tasks), fetch) == AfterCycle(r.tasks, fetch)
  {
    var items := Items(r.order, r.tasks);
    ItemsSnapshot(r);
    assert items[..|items|] == items;
    var tasks' := PollPrefix(r.tasks, items, fetch);
    forall u | u in r.tasks
      ensures u in tasks' && tasks'[u] == AfterCycle(r.tasks, fetch)[u]
    {
      assert u in r.order;
      var k :| 0 <= k < |r.order| && r.order[k] == u;
      PollPrefixSpec(r.tasks, items, |items|, k, fetch);
    }
    PollPrefixKeys(r.tasks, items, fetch);
  }

  /** A pass adds no key other than those it visits. */
  lemma {:induction false} PollPrefixKeys(tasks: map<UserId, Task>, items: seq<(UserId, Task)>, fetch: string -> Response)
    ensures forall u :: u in PollPrefix(tasks, items, fetch) ==> u in tasks || exists k :: 0 <= k < |items| && items[k].0 == u
  {
    if items != [] {
      PollPrefixKeys(tasks, items[..|items| - 1], fetch);
      forall u | u in PollPrefix(tasks, items, fetch) && u !in tasks
        ensures exists k :: 0 <= k < |items| && items[k].0 == u
      {
        if u != items[|items| - 1].0 {
          var k :| 0 <= k < |items| - 1 && items[..|items| - 1][k].0 == u;
          assert items[k].0 == u;
        }
      }
    }
  }

  /** One pass of `monitor_rooms` over a snapshot of the registry. */
  function Cycle(r: Registry, fetch: string -> Response): (result: (Registry, seq<Push>))
    requires WellFormed(r)
    ensures result.0.order == r.order && result.0.tasks.Keys == r.tasks.Keys
  {
    (Registry(r.order, AfterCycle(r.tasks, fetch)), CycleLog(Items(r.order, r.tasks), fetch))
  }

  /** The effect of a read command (`handle_message` after the acknowledgement). */
  function Respond(r: Registry, user: UserId, command: Command, fetch: string -> Response): (result: (Registry, seq<Push>))
    ensures |result.1| == 1 && result.1[0].to == user && !result.1[0].message.Found?
  {
    match command
    case Help => (r, [Push(user, HelpText)])
    case Status => (r, [Push(user, StatusReply(r.tasks, user))])
    case Stop => StopTask(r, user)
    case Watch(checkin, checkout, adults) => QueryRoom(r, fetch, user, checkin, checkout, adults)
    case Malformed(reason) => (r, [Push(user, FormatError(reason))])
  }

  /** What can happen to the registry: a chat message from a user, or a tick of the poller. */
  datatype Event =
    | Chat(user: UserId, text: string, fetch: string -> Response)
    | Tick(fetch: string -> Response)

  /**
   * The effect of one event. The insertion order stays well formed, no entry
   * is ever removed, and every entry added is a request that passed validation.
   */
  function Step(r: Registry, e: Event): (result: (Registry, seq<Push>))
    requires WellFormed(r)
    ensures WellFormed(result.0)
    ensures r.tasks.Keys <= result.0.tasks.Keys
  {
    match e
    case Chat(user, text, fetch) =>
      RespondKeepsShape(r, user, Interpret(text), fetch);
      var reply := Respond(r, user, Interpret(text), fetch);
      var r', out := reply.0, reply.1;
      (r', [Push(user, Acknowledged)] + out)
    case Tick(fetch) => Cycle(r, fetch)
  }

  lemma StepChat(r: Registry, user: UserId, text: string, fetch: string -> Response)
    requires WellFormed(r)
    ensures Step(r, Chat(user, text, fetch)).0 == Respond(r, user, Interpret(text), fetch).0
    ensures Step(r, Chat(user, text, fetch)).1 == [Push(user, Acknowledged)] + Respond(r, user, Interpret(text), fetch).1
  {
  }

  lemma RespondKeepsShape(r: Registry, user: UserId, command: Command, fetch: string -> Response)
    requires WellFormed(r)
    ensures WellFormed(Respond(r, user, command, fetch).0)
    ensures r.tasks.Keys <= Respond(r, user, command, fetch).0.tasks.Keys
  {
    match command
    case Watch(checkin, checkout, adults) =>
      var result := CheckRoomByDates(fetch, checkin, checkout, adults);
      if !result.available {
        assert Respond(r, user, command, fetch).0 == Store(r, user, Task(checkin, checkout, adults, true));
      }
    case _ =>
  }

  /** The same stay, whatever the `active` flag says. */
  predicate SameRequest(a: Task, b: Task) {
    a.checkin == b.checkin && a.checkout == b.checkout && a.adults == b.adults
  }

  /**
   * Nothing but a registered request changes an entry's stay: after any event,
   * an entry either holds the stay it held before, with perhaps a different
   * `active` flag, or is the request the event itself registered, active.
   */
  lemma StepEntry(r: Registry, e: Event, user: UserId)
    requires WellFormed(r)
    requires user in Step(r, e).0.tasks
    ensures var t := Step(r, e).0.tasks[user];
      || (user in r.tasks && SameRequest(t, r.tasks[user]))
      || (&& Arms(e, user)
          && var c := Interpret(e.text);
             t == Task(c.checkin, c.checkout, c.adults, true))
  {
    match e
    case Chat(u, text, fetch) =>
      RespondEntry(r, u, Interpret(text), fetch, user);
    case Tick(fetch) =>
      assert Step(r, e).0.tasks == AfterCycle(r.tasks, fetch);
  }

  lemma RespondEntry(r: Registry, u: UserId, c: Command, fetch: string -> Response, user: UserId)
    requires user in Respond(r, u, c, fetch).0.tasks
    ensures var t := Respond(r, u, c, fetch).0.tasks[user];
      || (user in r.tasks && SameRequest(t, r.tasks[user]))
      || (&& user == u && c.Watch?
          && !CheckRoomByDates(fetch, c.checkin, c.checkout, c.adults).available
          && t == Task(c.checkin, c.checkout, c.adults, true))
  {
    if c.Watch? {
      if !CheckRoomByDates(fetch, c.checkin, c.checkout, c.adults).available {
        assert Respond(r, u, c, fetch).0.tasks == r.tasks[u := Task(c.checkin, c.checkout, c.adults, true)];
      } else {
        assert Respond(r, u, c, fetch).0 == r;
      }
    } else if c.Stop? {
      assert Respond(r, u, c, fetch).0 == StopTask(r, u).0;
    } else {
      assert Respond(r, u, c, fetch).0 == r;
    }
  }

  /** Every entry ever added holds a request that passed validation. */
  lemma StepKeepsValidRequests(r: Registry, e: Event)
    requires WellFormed(r) && ValidRequests(r)
    ensures ValidRequests(Step(r, e).0)
  {
    var r' := Step(r, e).0;
    forall u | u in r'.tasks
      ensures ValidTask(r'.tasks[u])
    {
      StepEntry(r, e, u);
    }
  }

  lemma {:induction false} RunKeepsValidRequests(r: Registry, trace: seq<Event>)
    requires WellFormed(r) && ValidRequests(r)
    ensures ValidRequests(Run(r, trace).0)
    decreases |trace|
  {
    if trace != [] {
      StepKeepsValidRequests(r, trace[0]);
      RunKeepsValidRequests(Step(r, trace[0]).0, trace[1..]);
    }
  }

  /** A stay that passes the handler's validation. */
  predicate ValidTask(t: Task) {
    IsDateShape(t.checkin) && IsDateShape(t.checkout) && 1 <= t.adults <= 10
  }

  /** Every entry holds a request that passes the handler's validation. */
  predicate ValidRequests(r: Registry) {
    forall u :: u in r.tasks ==> ValidTask(r.tasks[u])
  }

  /** The registry after a sequence of events, and everything pushed on the way. */
  function Run(r: Registry, trace: seq<Event>): (result: (Registry, seq<Push>))
    requires WellFormed(r)
    ensures WellFormed(result.0)
    ensures r.tasks.Keys <= result.0.tasks.Keys
    decreases |trace|
  {
    if trace == [] then (r, [])
    else
      var first := Step(r, trace[0]);
      var rest := Run(first.0, trace[1..]);
      (rest.0, first.1 + rest.1)
  }

  // ---------------------------------------------------------------------------
  // At most one notification per registered request
  // ---------------------------------------------------------------------------

  /** How many room-found notifications `log` sends to `user`. */
  function Notified(user: UserId, log: seq<Push>): nat {
    if log == [] then 0
    else Notified(user, log[..|log| - 1]) + (if log[|log| - 1].to == user && log[|log| - 1].message.Found? then 1 else 0)
  }

  lemma {:induction false} NotifiedAppend(user: UserId, a: seq<Push>, b: seq<Push>)
    ensures Notified(user, a + b) == Notified(user, a) + Notified(user, b)
    decreases |b|
  {
    if b == [] {
      assert a + b == a;
    } else {
      assert (a + b)[..|a + b| - 1] == a + b[..|b| - 1];
      NotifiedAppend(user, a, b[..|b| - 1]);
    }
  }

  /** 1 while monitoring runs for the user, 0 otherwise. */
  function Armed(r: Registry, user: UserId): nat {
    if IsRunning(r.tasks, user) then 1 else 0
  }

  /** The event is a request from the user that the immediate check registers. */
  predicate Arms(e: Event, user: UserId) {
    && e.Chat? && e.user == user
    && var c := Interpret(e.text);
       c.Watch? && !CheckRoomByDates(e.fetch, c.checkin, c.checkout, c.adults).available
  }

  function ArmCount(trace: seq<Event>, user: UserId): nat {
    if trace == [] then 0 else (if Arms(trace[0], user) then 1 else 0) + ArmCount(trace[1..], user)
  }

  /** Some entry of the snapshot belongs to `user`. */
  predicate Lists(items: seq<(UserId, Task)>, user: UserId) {
    exists k :: 0 <= k < |items| && items[k].0 == user
  }

  /**
   * Visiting the entries of a snapshot notifies a user once if the user's
   * entry is among them, is active and its room is found, and never otherwise.
   */
  lemma {:induction false} CycleNotified(items: seq<(UserId, Task)>, tasks: map<UserId, Task>, fetch: string -> Response, user: UserId)
    requires IsSnapshot(items, tasks)
    ensures Notified(user, CycleLog(items, fetch))
         == if user in tasks && Lists(items, user) && FoundRoom(tasks[user], fetch) then 1 else 0
  {
    if items != [] {
      var n := |items|;
      var init := items[..n - 1];
      var last, task := items[n - 1].0, items[n - 1].1;
      assert IsSnapshot(init, tasks) by {
        assert forall j :: 0 <= j < |init| ==> init[j] == items[j];
      }
      CycleNotified(init, tasks, fetch, user);
      assert CycleLog(items, fetch) == CycleLog(init, fetch) + PollNotes(last, task, fetch);
      NotifiedAppend(user, CycleLog(init, fetch), PollNotes(last, task, fetch));
      NotesNotified(user, last, task, fetch);
      ListsLast(items, tasks, user);
    }
  }

  /** The last entry of a snapshot is listed, and only there. */
  lemma ListsLast(items: seq<(UserId, Task)>, tasks: map<UserId, Task>, user: UserId)
    requires IsSnapshot(items, tasks) && items != []
    ensures var init, last := items[..|items| - 1], items[|items| - 1].0;
      && (Lists(items, user) <==> Lists(init, user) || user == last)
      && (user == last ==> !Lists(init, user))
  {
    var n := |items|;
    var init := items[..n - 1];
    if Lists(items, user) {
      var k :| 0 <= k < n && items[k].0 == user;
      if k < n - 1 {
        assert init[k].0 == user;
      }
    }
    if Lists(init, user) {
      var k :| 0 <= k < |init| && init[k].0 == user;
      assert items[k].0 == user;
      assert items[k].0 != items[n - 1].0;
    }
    assert items[n - 1].0 == items[n - 1].0;
  }

  /** The poller notifies the entry it visits, once, and nobody else. */
  lemma NotesNotified(user: UserId, owner: UserId, task: Task, fetch: string -> Response)
    ensures Notified(user, PollNotes(owner, task, fetch)) == if user == owner && FoundRoom(task, fetch) then 1 else 0
  {
    var notes := PollNotes(owner, task, fetch);
    if notes != [] {
      assert notes[..0] == [];
    }
  }

  /**
   * One event balances: notifications sent to the user plus "still armed"
   * afterwards never exceed "armed" before plus one if the event arms it.
   */
  lemma StepBalance(r: Registry, e: Event, user: UserId)
    requires WellFormed(r)
    ensures var r', out := Step(r, e).0, Step(r, e).1;
      Notified(user, out) + Armed(r', user) <= Armed(r, user) + (if Arms(e, user) then 1 else 0)
  {
    match e
    case Chat(u, text, fetch) =>
      var out' := Respond(r, u, Interpret(text), fetch).1;
      RespondBalance(r, u, Interpret(text), fetch, user);
      assert Step(r, e).1 == [Push(u, Acknowledged)] + out';
      NotifiedAppend(user, [Push(u, Acknowledged)], out');
      assert Notified(user, [Push(u, Acknowledged)]) == 0 by {
        assert [Push(u, Acknowledged)][..0] == [];
      }
    case Tick(fetch) =>
      var items := Items(r.order, r.tasks);
      ItemsSnapshot(r);
      CycleNotified(items, r.tasks, fetch, user);
      if user in r.tasks {
        var k :| 0 <= k < |r.order| && r.order[k] == user;
        assert items[k].0 == user;
      }
      assert Step(r, e) == Cycle(r, fetch);
  }

  /** A command sends no notification, and arms the user only when it registers a request. */
  lemma RespondBalance(r: Registry, u: UserId, c: Command, fetch: string -> Response, user: UserId)
    ensures Notified(user, Respond(r, u, c, fetch).1) == 0
    ensures Armed(Respond(r, u, c, fetch).0, user) <= Armed(r, user)
      + (if user == u && c.Watch? && !CheckRoomByDates(fetch, c.checkin, c.checkout, c.adults).available then 1 else 0)
  {
    var out := Respond(r, u, c, fetch).1;
    assert |out| == 1 && !out[0].message.Found?;
    assert out[..0] == [];
    if c.Watch? {
      if !CheckRoomByDates(fetch, c.checkin, c.checkout, c.adults).available {
        assert Respond(r, u, c, fetch).0.tasks == r.tasks[u := Task(c.checkin, c.checkout, c.adults, true)];
      } else {
        assert Respond(r, u, c, fetch).0 == r;
      }
    } else if c.Stop? {
      assert Respond(r, u, c, fetch).0 == StopTask(r, u).0;
    } else {
      assert Respond(r, u, c, fetch).0 == r;
    }
  }

  /** Over any sequence of events the balance adds up. */
  lemma {:induction false} RunBalance(r: Registry, trace: seq<Event>, user: UserId)
    requires WellFormed(r)
    ensures var r', out := Run(r, trace).0, Run(r, trace).1;
      Notified(user, out) + Armed(r', user) <= Armed(r, user) + ArmCount(trace, user)
    decreases |trace|
  {
    if trace != [] {
      var r1, out1 := Step(r, trace[0]).0, Step(r, trace[0]).1;
      var out2 := Run(r1, trace[1..]).1;
      StepBalance(r, trace[0], user);
      RunBalance(r1, trace[1..], user);
      NotifiedAppend(user, out1, out2);
    }
  }

  /**
   * At most one notification per request: after the last registration of a
   * request for a user, however many passes, stops and other messages follow,
   * the user is notified at most once.
   */
  lemma AtMostOneNotification(r: Registry, trace: seq<Event>, user: UserId)
    requires WellFormed(r)
    requires ArmCount(trace, user) == 0
    ensures Notified(user, Run(r, trace).1) <= 1
  {
    RunBalance(r, trace, user);
  }

  /**
   * Deactivation is final: once a user's entry is inactive (or absent), no
   * pass notifies the user and the entry stays inactive, until a new request
   * is registered for that user.
   */
  lemma DeactivationFinal(r: Registry, trace: seq<Event>, user: UserId)
    requires WellFormed(r)
    requires !IsRunning(r.tasks, user)
    requires ArmCount(trace, user) == 0
    ensures Notified(user, Run(r, trace).1) == 0
    ensures !IsRunning(Run(r, trace).0.tasks, user)
  {
    RunBalance(r, trace, user);
  }

  /**
   * Inactive entries are not checked: a pass gives the same result under any
   * two networks that agree on the search URLs of the active entries.
   */
  lemma InactiveNotChecked(r: Registry, fetch1: string -> Response, fetch2: string -> Response)
    requires WellFormed(r)
    requires forall u :: u in r.tasks && r.tasks[u].active ==>
      var url := BuildUrl(r.tasks[u].checkin, r.tasks[u].checkout, r.tasks[u].adults, DefaultRoomId);
      CheckAvailability(fetch1(url)) == CheckAvailability(fetch2(url))
    ensures Cycle(r, fetch1) == Cycle(r, fetch2)
  {
    var after1, after2 := AfterCycle(r.tasks, fetch1), AfterCycle(r.tasks, fetch2);
    forall u | u in r.tasks
      ensures after1[u] == after2[u]
    {
      SameVisit(u, r.tasks[u], fetch1, fetch2);
    }
    assert after1 == after2;
    var items := Items(r.order, r.tasks);
    forall k | 0 <= k < |items|
      ensures PollNotes(items[k].0, items[k].1, fetch1) == PollNotes(items[k].0, items[k].1, fetch2)
    {
      assert items[k].0 in r.tasks;
      SameVisit(items[k].0, items[k].1, fetch1, fetch2);
    }
    SameCycleLog(items, fetch1, fetch2);
  }

  /** A visit reads the network only through the verdict on an active entry's URL. */
  lemma SameVisit(u: UserId, t: Task, fetch1: string -> Response, fetch2: string -> Response)
    requires t.active ==>
      var url := BuildUrl(t.checkin, t.checkout, t.adults, DefaultRoomId);
      CheckAvailability(fetch1(url)) == CheckAvailability(fetch2(url))
    ensures AfterPoll(t, fetch1) == AfterPoll(t, fetch2)
    ensures PollNotes(u, t, fetch1) == PollNotes(u, t, fetch2)
  {
    assert FoundRoom(t, fetch1) == FoundRoom(t, fetch2);
  }

  lemma {:induction false} SameCycleLog(items: seq<(UserId, Task)>, fetch1: string -> Response, fetch2: string -> Response)
    requires forall k :: 0 <= k < |items| ==> PollNotes(items[k].0, items[k].1, fetch1) == PollNotes(items[k].0, items[k].1, fetch2)
    ensures CycleLog(items, fetch1) == CycleLog(items, fetch2)
  {
    if items != [] {
      var init := items[..|items| - 1];
      assert forall k :: 0 <= k < |init| ==> init[k] == items[k];
      SameCycleLog(init, fetch1, fetch2);
    }
  }

  /**
   * A failed fetch for one entry does not hold up the others: with two active
   * entries, the first unreachable and the second bookable, the pass notifies
   * and deactivates the second only and leaves the first active.
   */
  lemma FailureIsolated(u1: UserId, t1: Task, u2: UserId, t2: Task, fetch: string -> Response)
    requires u1 != u2 && t1.active && t2.active
    requires fetch(BuildUrl(t1.checkin, t1.checkout, t1.adults, DefaultRoomId)).Failed?
    requires CheckAvailability(fetch(BuildUrl(t2.checkin, t2.checkout, t2.adults, DefaultRoomId)))
    ensures var r := Registry([u1, u2], map[u1 := t1, u2 := t2]);
      var r', out := Cycle(r, fetch).0, Cycle(r, fetch).1;
      && r'.tasks[u1] == t1
      && r'.tasks[u2] == t2.(active := false)
      && out == [Push(u2, Found(t2.checkin, t2.checkout, t2.adults, BuildUrl(t2.checkin, t2.checkout, t2.adults, DefaultRoomId)))]
  {
    var r := Registry([u1, u2], map[u1 := t1, u2 := t2]);
    assert WellFormed(r);
    assert Items(r.order, r.tasks) == [(u1, t1), (u2, t2)];
    CycleLogPair(u1, t1, u2, t2, fetch);
    assert !FoundRoom(t1, fetch) && FoundRoom(t2, fetch);
  }

  lemma CycleLogPair(u1: UserId, t1: Task, u2: UserId, t2: Task, fetch: string -> Response)
    ensures CycleLog([(u1, t1), (u2, t2)], fetch) == PollNotes(u1, t1, fetch) + PollNotes(u2, t2, fetch)
  {
    var items := [(u1, t1), (u2, t2)];
    var first := [(u1, t1)];
    assert items[..1] == first && items[1] == (u2, t2);
    assert first[..0] == [] && first[0] == (u1, t1);
    assert CycleLog(first, fetch) == CycleLog([], fetch) + PollNotes(u1, t1, fetch);
    assert CycleLog(items, fetch) == CycleLog(first, fetch) + PollNotes(u2, t2, fetch);
  }

  // ---------------------------------------------------------------------------
  // The registry object
  // ---------------------------------------------------------------------------

  /**
   * The bot's module-level state: the `monitoring_tasks` dictionary, kept as
   * its entries and their insertion order, and the log of pushes sent.
   */
  class Monitor {
    var order: seq<UserId>
    var tasks: map<UserId, Task>
    var outbox: seq<Push>

    ghost predicate Valid()
      reads this
    {
      WellFormed(Registry(order, tasks))
    }

    ghost function State(): Registry
      reads this
    {
      Registry(order, tasks)
    }

    constructor ()
      ensures Valid()
      ensures tasks == map[] && order == [] && outbox == []
    {
      order, tasks, outbox := [], map[], [];
    }

    /** `send_notification`: a failed delivery is swallowed, so the push is all that happens. */
    method SendNotification(user: UserId, checkin: string, checkout: string, adults: int, url: string)
      modifies this`outbox
      ensures outbox == old(outbox) + [Push(user, Found(checkin, checkout, adults, url))]
    {
      outbox := outbox + [Push(user, Found(checkin, checkout, adults, url))];
    }

    /** `process_room_query_background`. */
    method ProcessRoomQuery(fetch: string -> Response, user: UserId, checkin: string, checkout: string, adults: int)
      requires Valid()
      modifies this
      ensures Valid()
      ensures (State(), outbox) == (QueryRoom(old(State()), fetch, user, checkin, checkout, adults).0,
                                    old(outbox) + QueryRoom(old(State()), fetch, user, checkin, checkout, adults).1)
      ensures CheckRoomByDates(fetch, checkin, checkout, adults).available ==> tasks == old(tasks) && order == old(order)
      ensures !CheckRoomByDates(fetch, checkin, checkout, adults).available ==>
        tasks == old(tasks)[user := Task(checkin, checkout, adults, true)]
    {
      var result := CheckRoomByDates(fetch, checkin, checkout, adults);
      if result.available {
        outbox := outbox + [Push(user, AvailableNow(checkin, checkout, adults, result.url))];
      } else {
        if user !in tasks {
          order := order + [user];
        }
        tasks := tasks[user := Task(checkin, checkout, adults, true)];
        outbox := outbox + [Push(user, Watching(checkin, checkout, adults))];
      }
    }

    /** `stop_monitoring`. */
    method StopMonitoring(user: UserId)
      requires Valid()
      modifies this
      ensures Valid() && order == old(order)
      ensures (State(), outbox) == (StopTask(old(State()), user).0, old(outbox) + StopTask(old(State()), user).1)
      ensures user in old(tasks) ==> tasks == old(tasks)[user := old(tasks)[user].(active := false)]
      ensures user !in old(tasks) ==> tasks == old(tasks)
    {
      if user in tasks {
        tasks := tasks[user := tasks[user].(active := false)];
        outbox := outbox + [Push(user, Stopped)];
      } else {
        outbox := outbox + [Push(user, NoTask)];
      }
    }

    /** `send_status`: reports, and returns, whether monitoring runs for the user. */
    method SendStatus(user: UserId) returns (running: bool)
      modifies this`outbox
      ensures running == IsRunning(tasks, user)
      ensures outbox == old(outbox) + [Push(user, StatusReply(tasks, user))]
    {
      running := user in tasks && tasks[user].active;
      if running {
        var task := tasks[user];
        outbox := outbox + [Push(user, Running(task.checkin, task.checkout, task.adults))];
      } else {
        outbox := outbox + [Push(user, NoTask)];
      }
    }

    /**
     * The loop body of `monitor_rooms` for one entry: an inactive entry is
     * skipped; an active one is checked and, if its room is found, notified
     * and deactivated.
     */
    method PollEntry(user: UserId, task: Task, fetch: string -> Response)
      modifies this`tasks, this`outbox
      ensures tasks == if FoundRoom(task, fetch) then old(tasks)[user := task.(active := false)] else old(tasks)
      ensures outbox == old(outbox) + PollNotes(user, task, fetch)
    {
      if task.active {
        var result := CheckRoomByDates(fetch, task.checkin, task.checkout, task.adults);
        if result.available {
          SendNotification(user, task.checkin, task.checkout, task.adults, result.url);
          tasks := tasks[user := task.(active := false)];
        }
      }
    }

    /**
     * One pass of the `monitor_rooms` loop over a snapshot of the entries:
     * inactive entries are skipped; an active entry whose room is found is
     * notified and then deactivated; every other entry is left as it was.
     */
    method MonitorOnce(fetch: string -> Response)
      requires Valid()
      modifies this`tasks, this`outbox
      ensures tasks == PollPrefix(old(tasks), Items(old(order), old(tasks)), fetch)
      ensures outbox == old(outbox) + CycleLog(Items(old(order), old(tasks)), fetch)
    {
      var snapshot := Items(order, tasks);
      ghost var before := tasks;
      var i := 0;
      assert snapshot[..0] == [];
      while i < |snapshot|
        invariant 0 <= i <= |snapshot|
        invariant tasks == PollPrefix(before, snapshot[..i], fetch)
        invariant outbox == old(outbox) + CycleLog(snapshot[..i], fetch)
      {
        Visit(snapshot, i, before, old(outbox), fetch);
        i := i + 1;
      }
      assert snapshot[..i] == snapshot;
    }

    /** The loop body of `monitor_rooms` on the `i`-th entry of the snapshot, continuing the pass. */
    method Visit(snapshot: seq<(UserId, Task)>, i: nat, ghost before: map<UserId, Task>, ghost log: seq<Push>, fetch: string -> Response)
      requires i < |snapshot|
      requires tasks == PollPrefix(before, snapshot[..i], fetch)
      requires outbox == log + CycleLog(snapshot[..i], fetch)
      modifies this`tasks, this`outbox
      ensures tasks == PollPrefix(before, snapshot[..i + 1], fetch)
      ensures outbox == log + CycleLog(snapshot[..i + 1], fetch)
    {
      var user, task := snapshot[i].0, snapshot[i].1;
      PassStep(snapshot, i, before, fetch);
      ghost var notes := PollNotes(user, task, fetch);
      assert log + CycleLog(snapshot[..i + 1], fetch) == outbox + notes;
      PollEntry(user, task, fetch);
    }

    /** `handle_message`: acknowledge, read the command, and carry it out. */
    method HandleMessage(user: UserId, text: string, fetch: string -> Response)
      requires Valid()
      modifies this
      ensures Valid()
      ensures State() == Respond(old(State()), user, Interpret(text), fetch).0
      ensures outbox == old(outbox) + [Push(user, Acknowledged)] + Respond(old(State()), user, Interpret(text), fetch).1
    {
      outbox := outbox + [Push(user, Acknowledged)];
      var command := Interpret(text);
      Execute(user, command, fetch);
    }

    /** The branches of `handle_message` after the acknowledgement. */
    method Execute(user: UserId, command: Command, fetch: string -> Response)
      requires Valid()
      modifies this
      ensures Valid()
      ensures State() == Respond(old(State()), user, command, fetch).0
      ensures outbox == old(outbox) + Respond(old(State()), user, command, fetch).1
    {
      match command
      case Help =>
        outbox := outbox + [Push(user, HelpText)];
      case Status =>
        var _ := SendStatus(user);
      case Stop =>
        StopMonitoring(user);
      case Watch(checkin, checkout, adults) =>
        ProcessRoomQuery(fetch, user, checkin, checkout, adults);
      case Malformed(reason) =>
        outbox := outbox + [Push(user, FormatError(reason))];
    }

    /** A tick of the poller: one pass over the registry. */
    method Tick(fetch: string -> Response)
      requires Valid()
      modifies this
      ensures Valid()
      ensures State() == Step(old(State()), Event.Tick(fetch)).0
      ensures outbox == old(outbox) + Step(old(State()), Event.Tick(fetch)).1
    {
      ghost var r := State();
      MonitorOnce(fetch);
      PollPrefixAll(r, fetch);
      SameKeysWellFormed(r, State());
    }
  }
}
