/** What the reports that a node's reading loop sends say about the configured values of its devices. */
module MasterReports {
  import opened Sequences
  import opened Events
  import opened Plugins
  import opened ReadPlanner
  import opened DevicePool
  import opened ReadCycle
  import opened Scheduler
  import opened MasterSpec
  import opened MasterRuns
  import opened MasterCreation
  import opened CycleMeaning

  // ----- What becomes of a device -----

  /** A tick moves the requests of the device it reads through one cycle, cut short or not, and no others. */
  lemma {:induction false} TickSteps(m: Master, s: Surroundings, i: nat)
    requires Sound(m) && Loadable(s.found) && i < |Built(m, s).devices|
    ensures |Tick(m, s).devices| == |Built(m, s).devices|
    ensures Tick(m, s).devices[i].retryCount == Built(m, s).devices[i].retryCount
    ensures Tick(m, s).devices[i].steps
         == if Polls(m, s) == Some(i) then CycleOf(Built(m, s).devices[i], s).steps else Built(m, s).devices[i].steps
  {
    hide RunCycle, ReadOnce, LastNodeState, Choose, Loaded;
    var built := Built(m, s);
    BuiltSound(m, s);
    TickSound(built, s);
    ContextedSound(built, s.first, s.firstAt);
    var up := Connectable(built, s);
    if up.connected {
      ReadMoves(up, s, i);
    }
  }

  lemma ReadMoves(m: Master, s: Surroundings, i: nat)
    requires Sound(m) && m.connected && i < |m.devices|
    ensures |ReadOnce(m, s).devices| == |m.devices| && ReadOnce(m, s).devices[i].retryCount == m.devices[i].retryCount
    ensures ReadOnce(m, s).devices[i].steps
         == if Reads(m) && m.current == Some(i) then CycleOf(m.devices[i], s).steps else m.devices[i].steps
  {
    hide RunCycle, StatusOf, LastNodeState;
    ReadSound(m, s);
    if Reads(m) {
      var k := m.current.value;
      var c := CycleOf(m.devices[k], s);
      var marked := m.(devices := m.devices[k := m.devices[k].(steps := c.steps)]);
      if c.end.Mismatch? {
        RecoveredSound(marked.(latest := m.current), Culprit(m, c.end.late), s);
      }
    }
  }

  lemma TickSettings(m: Master, s: Surroundings, i: nat)
    requires Sound(m) && Loadable(s.found) && i < |Built(m, s).devices|
    ensures |Tick(m, s).devices| == |Built(m, s).devices| && SameSettings(Built(m, s).devices[i], Tick(m, s).devices[i])
  {
    hide SameSettings, Tick, Built, Sound, Loadable, Blamed;
    TickTimeouts(m, s, i);
  }

  /** The devices of a run from a fresh start, as they were created: those first found. */
  ghost function Origin(run: seq<Surroundings>): seq<Device> {
    if |run| == 0 then []
    else if Origin(Front(run)) != [] then Origin(Front(run))
    else Loaded(Last(run).found)
  }

  /** The conditions that device `i` has met in a run from a fresh start: those of exactly the turns that read it. */
  ghost function Life(run: seq<Surroundings>, i: nat): seq<Conditions>
    requires Sound(FRESH) && AllLoadable(run)
  {
    if |run| == 0 then []
    else
      var s := Last(run);
      Life(Front(run), i) + if Polls(Loop(FRESH, Front(run)), s) == Some(i) then [Conditions(s.net, s.times)] else []
  }

  /** `d` is the device that was created as `o`, its requests after these cycles. */
  ghost predicate Lived(o: Device, d: Device, life: seq<Conditions>) {
    SameSettings(o, d) && d.steps == After(o.steps, life, RetryLimit(o.retryCount))
  }

  /** The devices are those that were created, each after exactly the cycles of the turns that read it. */
  ghost predicate AllLived(origin: seq<Device>, devices: seq<Device>, run: seq<Surroundings>)
    requires Sound(FRESH) && AllLoadable(run)
  {
    |origin| == |devices| && forall i :: 0 <= i < |devices| ==> Lived(origin[i], devices[i], Life(run, i))
  }

  lemma LivesOn(o: Device, d: Device, life: seq<Conditions>, s: Surroundings, d': Device, read: bool)
    requires Lived(o, d, life) && SameSettings(d, d') && d'.steps == if read then CycleOf(d, s).steps else d.steps
    ensures Lived(o, d', life + if read then [Conditions(s.net, s.times)] else [])
  {
    var later := life + [Conditions(s.net, s.times)];
    assert Front(later) == life && Last(later) == Conditions(s.net, s.times) && life + [] == life;
    hide RunCycle;
  }

  lemma {:induction false} BuiltLives(run: seq<Surroundings>)
    requires Sound(FRESH) && AllLoadable(run) && |run| > 0
    requires AllLived(Origin(Front(run)), Loop(FRESH, Front(run)).devices, Front(run))
    requires Origin(Front(run)) == [] ==> forall i :: Life(Front(run), i) == []
    ensures AllLived(Origin(run), Built(Loop(FRESH, Front(run)), Last(run)).devices, Front(run))
  {
    var m, s := Loop(FRESH, Front(run)), Last(run);
    NothingLoaded();
    hide Loop, Choose, Loaded, Life, Sound;
    if Origin(Front(run)) == [] {
      assert Built(m, s).devices == Origin(run);
      forall i | 0 <= i < |Origin(run)| ensures Lived(Origin(run)[i], Origin(run)[i], []) {}
    }
  }

  lemma NothingLoaded()
    ensures Loaded([]) == []
  {
  }

  lemma TickLives(run: seq<Surroundings>)
    requires Sound(FRESH) && AllLoadable(run) && |run| > 0
    requires AllLived(Origin(run), Built(Loop(FRESH, Front(run)), Last(run)).devices, Front(run))
    ensures AllLived(Origin(run), Tick(Loop(FRESH, Front(run)), Last(run)).devices, run)
  {
    var m, s, origin := Loop(FRESH, Front(run)), Last(run), Origin(run);
    var built, tick := Built(m, s), Tick(m, s);
    if built.devices != [] {
      hide Loop, Origin, Lived, Tick, Built, Polls, CycleOf, Sound, Loadable, SameSettings, AllLoadable;
      TickSteps(m, s, 0);
      forall i | 0 <= i < |built.devices| ensures Lived(origin[i], tick.devices[i], Life(run, i)) {
        TickSteps(m, s, i);
        TickSettings(m, s, i);
        LivesOn(origin[i], built.devices[i], Life(Front(run), i), s, tick.devices[i], Polls(m, s) == Some(i));
      }
    }
  }

  /**
    After any run from a fresh start the devices are those first found, and the requests of each are as planned but
    for what exactly the cycles of the turns that read it have broken.
  */
  lemma {:induction false} LoopLives(run: seq<Surroundings>)
    requires AllLoadable(run)
    ensures Sound(FRESH) && AllLived(Origin(run), Loop(FRESH, run).devices, run)
    ensures Origin(run) == [] ==> forall i :: Life(run, i) == []
  {
    NothingSaid();
    if |run| > 0 {
      hide Tick, Built, Lived, Sound, Loadable, Proper, Loaded, Polls;
      LoopLives(Front(run));
      BuiltLives(run);
      TickLives(run);
    }
  }

  /** The same within the last turn, when new devices have been built and nothing has been read. */
  lemma {:induction false} DueLives(run: seq<Surroundings>)
    requires AllLoadable(run) && |run| > 0
    ensures Sound(FRESH) && AllLived(Origin(run), Built(Loop(FRESH, Front(run)), Last(run)).devices, Front(run))
  {
    hide *;
    FrontLoadable(run);
    LoopLives(Front(run));
    BuiltLives(run);
  }

  lemma FrontLoadable(run: seq<Surroundings>)
    requires AllLoadable(run) && |run| > 0
    ensures AllLoadable(Front(run)) && Loadable(Last(run).found)
  {
  }

  // ----- Which reports are sent -----

  /** The report of a completed cycle of the device. */
  function ReportOf(d: Device, s: Surroundings): Message {
    var c := CycleOf(d, s);
    DeviceEvent(StatusOf(c.failed, |d.steps|), d.id, c.measures)
  }

  /** The reports among the messages, in order. */
  function Reports(sent: seq<Message>): seq<Message> {
    if sent == [] then [] else Reports(Front(sent)) + if Last(sent).DeviceEvent? then [Last(sent)] else []
  }

  lemma ReportsLast(sent: seq<Message>, message: Message)
    ensures Reports(sent + [message]) == if message.DeviceEvent? then Reports(sent) + [message] else Reports(sent)
  {
    assert Front(sent + [message]) == sent;
  }

  lemma SayReports(m: Master, state: NodeState)
    ensures Reports(Say(m, state).sent) == Reports(m.sent)
  {
    ReportsLast(m.sent, NodeEvent(state));
  }

  lemma ContextedReports(m: Master, connection: Connection, now: int)
    ensures Reports(Contexted(m, connection, now).sent) == Reports(m.sent)
  {
    var starting := Say(m.(connected := false), Connecting);
    hide Reports;
    SayReports(m.(connected := false), Connecting);
    SayReports(starting.(connected := true), Connected);
    SayReports(starting, UnConnected);
  }

  lemma RecoveredReports(m: Master, blamed: Option<nat>, s: Surroundings)
    requires InRange(blamed, m.devices)
    ensures Reports(Recovered(m, blamed, s).sent) == Reports(m.sent)
  {
    var raised := m.(devices := Raised(m.devices, blamed));
    var again := Contexted(Dropped(raised, s.droppedAt), s.second, s.secondAt);
    hide Raised, Contexted, Reports;
    SayReports(raised, UnConnected);
    ContextedReports(Dropped(raised, s.droppedAt), s.second, s.secondAt);
    SayReports(again, UnConnected);
  }

  lemma ReadReports(m: Master, s: Surroundings)
    requires InRange(m.current, m.devices) && InRange(m.latest, m.devices)
    ensures Reports(ReadOnce(m, s).sent)
         == Reports(m.sent) + if Reads(m) && CycleOf(m.devices[m.current.value], s).end.Completed?
                              then [ReportOf(m.devices[m.current.value], s)] else []
  {
    hide RunCycle, StatusOf, Recovered, Reports;
    assert Reports(m.sent) + [] == Reports(m.sent);
    if Reads(m) {
      var i := m.current.value;
      var c := CycleOf(m.devices[i], s);
      var marked := m.(devices := m.devices[i := m.devices[i].(steps := c.steps)]);
      ReportsLast(m.sent, ReportOf(m.devices[i], s));
      SayReports(marked, UnConnected);
      if c.end.Mismatch? {
        RecoveredReports(marked.(latest := m.current), Culprit(m, c.end.late), s);
      }
    }
  }

  /** A tick reports the device it reads if its cycle is not cut short, and nothing else. */
  lemma {:induction false} TickReports(m: Master, s: Surroundings)
    requires Sound(m) && Loadable(s.found)
    ensures Reports(Tick(m, s).sent)
         == Reports(m.sent) + if Completes(m, s) then [ReportOf(Built(m, s).devices[Polls(m, s).value], s)] else []
  {
    hide RunCycle, LastNodeState, StatusOf, Choose, Loaded, Contexted, ReadOnce, ReportOf, Reports;
    var built := Built(m, s);
    assert Reports(m.sent) + [] == Reports(m.sent);
    BuiltSound(m, s);
    ContextedReports(built, s.first, s.firstAt);
    ContextedSound(built, s.first, s.firstAt);
    ContextedDevices(built, s.first, s.firstAt);
    ReadReports(Connectable(built, s), s);
  }

  lemma ContextedDevices(m: Master, connection: Connection, now: int)
    ensures var c := Contexted(m, connection, now); c.devices == m.devices && c.current == m.current && c.latest == m.latest
  {
  }

  /** The reports due in a run from a fresh start: one for every turn whose cycle completes, of the device it reads. */
  ghost function Owes(run: seq<Surroundings>): seq<Message>
    requires Sound(FRESH) && AllLoadable(run)
  {
    if |run| == 0 then []
    else
      var m, s := Loop(FRESH, Front(run)), Last(run);
      Owes(Front(run)) + if Completes(m, s) then [ReportOf(Built(m, s).devices[Polls(m, s).value], s)] else []
  }

  /** The reports that the controller is sent are exactly those that are due, in order. */
  lemma {:induction false} ReportsExactly(run: seq<Surroundings>)
    requires AllLoadable(run)
    ensures Sound(FRESH) && Reports(Loop(FRESH, run).sent) == Owes(run)
  {
    NothingSaid();
    if |run| > 0 {
      hide Tick, Built, Sound, Loadable, Proper, Polls, Completes, ReportOf, Reports;
      ReportsExactly(Front(run));
      TickReports(Loop(FRESH, Front(run)), Last(run));
    } else {
      assert Reports([]) == [];
    }
  }

  // ----- Everything that is said -----

  /** What an attempt to connect makes the node say. */
  function Dialled(connection: Connection): seq<Message> {
    match connection
    case BadAddress => [NodeEvent(Connecting)]
    case Accepted => [NodeEvent(Connecting), NodeEvent(NodeState.Connected)]
    case Refusal => [NodeEvent(Connecting), NodeEvent(UnConnected)]
  }

  /** What the cycle of a device makes the node say: an attempt to recover that fails is said to have failed once more. */
  function CycleSays(d: Device, s: Surroundings): seq<Message> {
    match CycleOf(d, s).end
    case Completed => [ReportOf(d, s)]
    case Disconnected => [NodeEvent(UnConnected)]
    case Mismatch(_) => [NodeEvent(UnConnected)] + Dialled(s.second) + if s.second == Accepted then [] else [NodeEvent(UnConnected)]
  }

  /** What a tick makes the node say. */
  ghost function TickSays(m: Master, s: Surroundings): seq<Message>
    requires Sound(m) && Loadable(s.found)
  {
    (if m.connected || Built(m, s).devices == [] then [] else Dialled(s.first))
    + match Polls(m, s)
      case None => []
      case Some(p) => CycleSays(Built(m, s).devices[p], s)
  }

  lemma ContextedSays(m: Master, connection: Connection, now: int)
    ensures Contexted(m, connection, now).sent == m.sent + Dialled(connection)
  {
  }

  lemma RecoveredSays(m: Master, blamed: Option<nat>, s: Surroundings)
    requires InRange(blamed, m.devices)
    ensures Recovered(m, blamed, s).sent
         == m.sent + ([NodeEvent(UnConnected)] + Dialled(s.second) + if s.second == Accepted then [] else [NodeEvent(UnConnected)])
  {
    var dropped := Dropped(m.(devices := Raised(m.devices, blamed)), s.droppedAt);
    ContextedSays(dropped, s.second, s.secondAt);
    ContextedSound(dropped, s.second, s.secondAt);
    hide Raised, Contexted, LastNodeState, Dialled;
  }

  lemma ReadSays(m: Master, s: Surroundings)
    requires InRange(m.current, m.devices) && InRange(m.latest, m.devices)
    ensures ReadOnce(m, s).sent == m.sent + if Reads(m) then CycleSays(m.devices[m.current.value], s) else []
  {
    hide RunCycle, StatusOf, Recovered;
    if Reads(m) {
      var i := m.current.value;
      var c := CycleOf(m.devices[i], s);
      var marked := m.(devices := m.devices[i := m.devices[i].(steps := c.steps)]);
      if c.end.Mismatch? {
        RecoveredSays(marked.(latest := m.current), Culprit(m, c.end.late), s);
      }
    }
  }

  lemma {:induction false} TickSaid(m: Master, s: Surroundings)
    requires Sound(m) && Loadable(s.found)
    ensures Tick(m, s).sent == m.sent + TickSays(m, s)
  {
    hide RunCycle, LastNodeState, StatusOf, Choose, Loaded, Contexted, ReadOnce, Dialled, CycleSays;
    var built := Built(m, s);
    BuiltSound(m, s);
    ContextedSays(built, s.first, s.firstAt);
    ContextedSound(built, s.first, s.firstAt);
    ContextedDevices(built, s.first, s.firstAt);
    ReadSays(Connectable(built, s), s);
  }

  /** What the turns of a run from a fresh start make the node say. */
  ghost function Story(run: seq<Surroundings>): seq<Message>
    requires Sound(FRESH) && AllLoadable(run)
  {
    if |run| == 0 then [] else Story(Front(run)) + TickSays(Loop(FRESH, Front(run)), Last(run))
  }

  /** The controller is told exactly that, message by message. */
  lemma {:induction false} StoryExactly(run: seq<Surroundings>)
    requires AllLoadable(run)
    ensures Sound(FRESH) && Loop(FRESH, run).sent == Story(run)
  {
    NothingSaid();
    if |run| > 0 {
      hide Tick, TickSays, Sound, Loadable, Proper;
      StoryExactly(Front(run));
      TickSaid(Loop(FRESH, Front(run)), Last(run));
    }
  }

  // ----- What the reports say -----

  /** Whose report it is, its status, and the receipts of its measures. */
  datatype Account = Account(id: int, status: DeviceState, receipts: seq<Option<Receipt>>)

  function AccountOf(message: Message): Option<Account> {
    if message.DeviceEvent? then Some(Account(message.id, message.status, Map(ReceiptOf, message.measures))) else None
  }

  /** What the status has to be, read off the answers. */
  ghost function DueStatus(steps: seq<ReadStep>, net: Network, limit: nat): DeviceState {
    if AllAnswered(steps, net, limit) then Full else if NoneAnswered(steps, net, limit) then Failed else SomePart
  }

  /** What a completed cycle of the device created as `o` owes after this life, under these surroundings. */
  ghost function DueAccount(o: Device, life: seq<Conditions>, s: Surroundings): Option<Account> {
    var limit := RetryLimit(o.retryCount);
    var steps := After(o.steps, life, limit);
    Some(Account(o.id, DueStatus(steps, s.net, limit), Owed(steps, s.net, limit, s.times)))
  }

  /** Every answered request of the device that the tick reads comes back whole. */
  ghost predicate Honest(m: Master, s: Surroundings)
    requires Sound(m) && Loadable(s.found)
  {
    Polls(m, s).Some? ==> FullAnswers(s.net, Built(m, s).devices[Polls(m, s).value].steps)
  }

  ghost predicate HonestRun(run: seq<Surroundings>)
    requires Sound(FRESH) && AllLoadable(run)
  {
    |run| == 0 || (HonestRun(Front(run)) && Honest(Loop(FRESH, Front(run)), Last(run)))
  }

  lemma {:induction false} ReportAccounts(o: Device, d: Device, life: seq<Conditions>, s: Surroundings)
    requires IsCreated(o) && Lived(o, d, life) && FullAnswers(s.net, d.steps) && CycleOf(d, s).end.Completed?
    ensures AccountOf(ReportOf(d, s)) == DueAccount(o, life, s)
  {
    var conf, values, now :| ShortRequests(values) && o == NewDevice(conf, values, now);
    assert o.steps == DeviceSteps(values, conf.readByGroup) && d.retryCount == o.retryCount && d.id == o.id;
    hide RunCycle, After, DeviceSteps, ShortRequests, Owed, AllAnswered, NoneAnswered, FullAnswers, StatusOf;
    DeviceAccounted(values, conf.readByGroup, life, RetryLimit(d.retryCount), s.net, s.times);
    StatusMeaning(d.steps, s.net, RetryLimit(d.retryCount), s.times);
    NothingToAnswer(d.steps, s.net, RetryLimit(d.retryCount));
  }

  lemma NothingToAnswer(steps: seq<ReadStep>, net: Network, limit: nat)
    ensures steps == [] ==> AllAnswered(steps, net, limit)
    ensures AllAnswered(steps, net, limit) && NoneAnswered(steps, net, limit) ==> steps == []
  {
    if steps != [] {
      assert AllAnswered(steps, net, limit) ==> Answered(steps[0], Answers(net, 0), limit);
    }
  }

  /** The accounts due in a run from a fresh start, from the devices as they were created and their lives so far. */
  ghost function DueAccounts(run: seq<Surroundings>): seq<Option<Account>>
    requires Sound(FRESH) && AllLoadable(run)
  {
    if |run| == 0 then []
    else
      var m, s := Loop(FRESH, Front(run)), Last(run);
      DueLives(run);
      DueAccounts(Front(run))
      + if Completes(m, s) then [DueAccount(Origin(run)[Polls(m, s).value], Life(Front(run), Polls(m, s).value), s)] else []
  }

  lemma TurnAccounted(run: seq<Surroundings>)
    requires Sound(FRESH) && AllLoadable(run) && |run| > 0 && AllCreated(Origin(run))
    requires Honest(Loop(FRESH, Front(run)), Last(run)) && Completes(Loop(FRESH, Front(run)), Last(run))
    ensures var m, s := Loop(FRESH, Front(run)), Last(run);
            var p := Polls(m, s).value;
            && p < |Origin(run)|
            && AccountOf(ReportOf(Built(m, s).devices[p], s)) == DueAccount(Origin(run)[p], Life(Front(run), p), s)
  {
    var m, s := Loop(FRESH, Front(run)), Last(run);
    var p := Polls(m, s).value;
    DueLives(run);
    hide Loop, Built, Polls, Origin, Life, IsCreated, Lived, FullAnswers, AccountOf, ReportOf, DueAccount, Sound, AllLoadable;
    ReportAccounts(Origin(run)[p], Built(m, s).devices[p], Life(Front(run), p), s);
  }

  /**
    In any run from a fresh start the reports sent to the controller account, one by one and in order, for exactly what
    the completed cycles owe: one measure per plugin of the requests planned for the configured values that no earlier
    cycle of this device has broken, at its own time, with a value if and only if the request was answered, and the
    status that the answers call for.
  */
  lemma {:induction false} ReportsAccounted(run: seq<Surroundings>)
    requires Sound(FRESH) && AllLoadable(run) && AllCreated(Origin(run)) && HonestRun(run)
    ensures Map(AccountOf, Reports(Loop(FRESH, run).sent)) == DueAccounts(run)
  {
    ReportsExactly(run);
    OwesAccounted(run);
  }

  lemma {:induction false} OwesAccounted(run: seq<Surroundings>)
    requires Sound(FRESH) && AllLoadable(run) && AllCreated(Origin(run)) && HonestRun(run)
    ensures Map(AccountOf, Owes(run)) == DueAccounts(run)
  {
    if |run| > 0 {
      var m, s := Loop(FRESH, Front(run)), Last(run);
      hide Loop, Tick, Built, Polls, IsCreated, Honest, Completes, Life, AccountOf, ReportOf, DueAccount, Sound, Loadable, Loaded;
      OwesAccounted(Front(run));
      if Completes(m, s) {
        TurnAccounted(run);
        MapJoin(AccountOf, Owes(Front(run)), [ReportOf(Built(m, s).devices[Polls(m, s).value], s)]);
      } else {
        assert Owes(Front(run)) + [] == Owes(Front(run));
      }
    }
  }

  /**
    Every measure that is reported of a device in any run from a fresh start is that of a value configured for it
    which its mode serves, and says what the memory behind the answers holds for that value, or that it could not be read.
  */
  lemma {:induction false} ReportsTrue(run: seq<Surroundings>, conf: DeviceRead, values: seq<ValueRead>, now: int, memory: Memory)
    requires Sound(FRESH) && AllLoadable(run) && |run| > 0 && Completes(Loop(FRESH, Front(run)), Last(run))
    requires var m, s := Loop(FRESH, Front(run)), Last(run);
             && InRange(Polls(m, s), Origin(run)) && Origin(run)[Polls(m, s).value] == NewDevice(conf, values, now)
             && FromMemory(s.net, Built(m, s).devices[Polls(m, s).value].steps, memory)
    requires forall t :: Addressed(values, t, conf.readByGroup)
    ensures var m, s := Loop(FRESH, Front(run)), Last(run);
            forall measure :: measure in ReportOf(Built(m, s).devices[Polls(m, s).value], s).measures ==>
              Fits(measure, values, conf.readByGroup, memory)
  {
    var m, s := Loop(FRESH, Front(run)), Last(run);
    var i := Polls(m, s).value;
    var d := Built(m, s).devices[i];
    DueLives(run);
    hide Loop, Built, Polls, Origin, Life, Fits, Addressed, RunCycle, FromMemory, Sound, AllLoadable, After, DeviceSteps;
    DeviceMeasuresTrue(values, conf.readByGroup, Life(Front(run), i), RetryLimit(conf.retryCount), s.net, s.times, memory);
  }
}
