/** The v1 camera monitor: which cameras are active, and which callbacks it launches. */
module CameraMonitor {

  datatype Status = Status(isActive: bool, lastSuccess: int, consecutiveFailures: nat, hasError: bool)

  /** A callback that was launched. */
  datatype Event = Up(cam: string) | Down(cam: string) | AllInactive

  datatype Op = Register(cam: string) | Success(cam: string, now: int) | Failure(cam: string)

  datatype Watch = Watch(cameras: map<string, Status>, events: seq<Event>)

  const NEW_STATUS := Status(false, 0, 0, false)

  function Active(cameras: map<string, Status>): set<string> {
    set c | c in cameras && cameras[c].isActive
  }

  /** The records after a call. */
  function Records(m: map<string, Status>, op: Op): map<string, Status> {
    if op.Register? then m[op.cam := NEW_STATUS]
    else if op.cam !in m then m
    else if op.Success? then m[op.cam := Status(true, op.now, 0, false)]
    else
      var st := m[op.cam];
      var failures := st.consecutiveFailures + 1;
      m[op.cam := st.(consecutiveFailures := failures, hasError := true, isActive := st.isActive && failures < 3)]
  }

  predicate GoesUp(m: map<string, Status>, op: Op) {
    op.Success? && op.cam in m && !m[op.cam].isActive
  }

  predicate GoesDown(m: map<string, Status>, op: Op) {
    op.Failure? && op.cam in m && m[op.cam].isActive && m[op.cam].consecutiveFailures + 1 >= 3
  }

  predicate AllDown(m: map<string, Status>, op: Op) {
    op.Failure? && op.cam in m && Active(Records(m, op)) == {}
  }

  /** The callbacks that a call launches, all three being set. */
  function Launched(m: map<string, Status>, op: Op): seq<Event> {
    Change(m, op) + if AllDown(m, op) then [AllInactive] else []
  }

  function Change(m: map<string, Status>, op: Op): seq<Event> {
    if GoesUp(m, op) then [Up(op.cam)] else if GoesDown(m, op) then [Down(op.cam)] else []
  }

  function Do(w: Watch, op: Op): Watch {
    Watch(Records(w.cameras, op), w.events + Launched(w.cameras, op))
  }

  function Run(ops: seq<Op>): Watch {
    if ops == [] then Watch(map[], [])
    else Do(Run(ops[..|ops| - 1]), ops[|ops| - 1])
  }

  // ----- reading the calls -----

  predicate Registered(ops: seq<Op>, cam: string) {
    ops != [] && (ops[|ops| - 1] == Register(cam) || Registered(ops[..|ops| - 1], cam))
  }

  /** The failures of a camera since its last success or registration. */
  function RecentFailures(ops: seq<Op>, cam: string): nat {
    if ops == [] || !Registered(ops, cam) then 0
    else
      var last := ops[|ops| - 1];
      if last == Failure(cam) then RecentFailures(ops[..|ops| - 1], cam) + 1
      else if last == Register(cam) || (last.Success? && last.cam == cam) then 0
      else RecentFailures(ops[..|ops| - 1], cam)
  }

  /** The camera has succeeded since its registration and has not failed three times in a row since. */
  predicate IsUp(ops: seq<Op>, cam: string) {
    if ops == [] || !Registered(ops, cam) then false
    else
      var last := ops[|ops| - 1];
      if last == Failure(cam) then IsUp(ops[..|ops| - 1], cam) && RecentFailures(ops, cam) < 3
      else if last == Register(cam) then false
      else if last.Success? && last.cam == cam then true
      else IsUp(ops[..|ops| - 1], cam)
  }

  /** When the camera last succeeded since it was last registered; 0 if it never did. */
  function LastSuccessOf(ops: seq<Op>, cam: string): int {
    if ops == [] || !Registered(ops, cam) then 0
    else
      var last := ops[|ops| - 1];
      if last == Register(cam) then 0
      else if last.Success? && last.cam == cam then last.now
      else LastSuccessOf(ops[..|ops| - 1], cam)
  }

  /** The monitor's records say what the calls say, registrations at any time included. */
  lemma {:induction false} RecordsMatch(ops: seq<Op>, cam: string)
    ensures var m := Run(ops).cameras;
            && (cam in m <==> Registered(ops, cam))
            && (cam in m ==> m[cam].consecutiveFailures == RecentFailures(ops, cam))
            && (cam in m ==> (m[cam].isActive <==> IsUp(ops, cam)))
            && (cam in m && m[cam].isActive ==> m[cam].consecutiveFailures < 3)
            && (cam in m ==> m[cam].lastSuccess == LastSuccessOf(ops, cam))
            && (cam in m ==> (m[cam].hasError <==> RecentFailures(ops, cam) > 0))
  {
    if ops != [] {
      RecordsMatch(ops[..|ops| - 1], cam);
    }
  }

  // ----- reading the events -----

  /** What an event says about one camera, true for up. */
  function Told(e: Event, cam: string): seq<bool> {
    if e == Up(cam) then [true] else if e == Down(cam) then [false] else []
  }

  /** The up and down events of one camera. */
  function Story(events: seq<Event>, cam: string): seq<bool> {
    if events == [] then [] else Story(events[..|events| - 1], cam) + Told(events[|events| - 1], cam)
  }

  function Weight(e: Event): int {
    if e.Up? then 1 else if e.Down? then -1 else 0
  }

  /** Ups minus downs, over all cameras. */
  function Balance(events: seq<Event>): int {
    if events == [] then 0 else Balance(events[..|events| - 1]) + Weight(events[|events| - 1])
  }

  /** Up, down, up, down, and so on. */
  predicate Alternates(story: seq<bool>) {
    story == [] || (
      var n := |story| - 1;
      Alternates(story[..n]) && (story[n] <==> n % 2 == 0))
  }

  /** This camera was once registered again while it was active. */
  predicate Disturbed(ops: seq<Op>, cam: string) {
    ops != [] && (
      var before := ops[..|ops| - 1];
      Disturbed(before, cam) || (ops[|ops| - 1] == Register(cam) && IsUp(before, cam)))
  }

  /** How often any camera was. */
  function Disturbances(ops: seq<Op>): nat {
    if ops == [] then 0
    else
      var before, op := ops[..|ops| - 1], ops[|ops| - 1];
      Disturbances(before) + if op.Register? && IsUp(before, op.cam) then 1 else 0
  }

  lemma {:induction false} EventAppended(a: seq<Event>, e: Event, cam: string)
    ensures Story(a + [e], cam) == Story(a, cam) + Told(e, cam)
    ensures Balance(a + [e]) == Balance(a) + Weight(e)
  {
    assert (a + [e])[..|a|] == a;
  }

  lemma {:induction false} AllInactiveAppended(a: seq<Event>, all: bool, cam: string)
    ensures var b := a + if all then [AllInactive] else []; Story(b, cam) == Story(a, cam) && Balance(b) == Balance(a)
  {
    if all {
      EventAppended(a, AllInactive, cam);
      assert Story(a, cam) + [] == Story(a, cam);
    } else {
      assert a + [] == a;
    }
  }

  lemma {:induction false} ChangeAppended(a: seq<Event>, m: map<string, Status>, op: Op, cam: string)
    ensures var b := a + Change(m, op);
            && Story(b, cam) == Story(a, cam) + Heard(m, op, cam)
            && Balance(b) == Balance(a) + if GoesUp(m, op) then 1 else if GoesDown(m, op) then -1 else 0
  {
    if GoesUp(m, op) {
      EventAppended(a, Up(op.cam), cam);
    } else if GoesDown(m, op) {
      EventAppended(a, Down(op.cam), cam);
    } else {
      assert a + [] == a;
    }
  }

  function Heard(m: map<string, Status>, op: Op, cam: string): seq<bool> {
    if op.cam != cam then [] else if GoesUp(m, op) then [true] else if GoesDown(m, op) then [false] else []
  }

  /** What a call adds to the events, seen from one camera. */
  lemma {:induction false} EventsAfter(w: Watch, op: Op, cam: string)
    ensures Story(Do(w, op).events, cam) == Story(w.events, cam) + Heard(w.cameras, op, cam)
    ensures Balance(Do(w, op).events) ==
            Balance(w.events) + if GoesUp(w.cameras, op) then 1 else if GoesDown(w.cameras, op) then -1 else 0
  {
    var a, all := w.events + Change(w.cameras, op), AllDown(w.cameras, op);
    assert Do(w, op).events == a + if all then [AllInactive] else [];
    ChangeAppended(w.events, w.cameras, op, cam);
    AllInactiveAppended(a, all, cam);
  }

  predicate IsActive(w: Watch, cam: string) {
    cam in w.cameras && w.cameras[cam].isActive
  }

  predicate StoryMatches(w: Watch, cam: string) {
    var story := Story(w.events, cam);
    Alternates(story) && (|story| % 2 == 1 <==> IsActive(w, cam))
  }

  /** The story no longer alternates, or will not from the next event on. */
  predicate StorySpoilt(w: Watch, cam: string) {
    var story := Story(w.events, cam);
    !Alternates(story) || (|story| % 2 == 1 && !IsActive(w, cam))
  }

  lemma {:induction false} OneMoreEvent(story: seq<bool>, up: bool)
    ensures Alternates(story + [up]) <==> Alternates(story) && (up <==> |story| % 2 == 0)
    ensures |story + [up]| % 2 == 1 <==> |story| % 2 == 0
  {
    assert (story + [up])[..|story|] == story;
  }

  lemma {:induction false} ActivityAfter(w: Watch, op: Op, cam: string)
    ensures var was, now := IsActive(w, cam), IsActive(Do(w, op), cam);
            if op.cam != cam then now == was
            else if op.Register? then !now
            else if GoesUp(w.cameras, op) then !was && now
            else if GoesDown(w.cameras, op) then was && !now
            else now == was
  {
  }

  /** A camera's story goes on with its activity. */
  lemma {:induction false} StoryAfter(w: Watch, op: Op, cam: string)
    ensures var w' := Do(w, op);
            && (Story(w'.events, cam) ==
                if op == Register(cam) || IsActive(w', cam) == IsActive(w, cam) then Story(w.events, cam)
                else Story(w.events, cam) + [IsActive(w', cam)])
            && (op == Register(cam) ==> !IsActive(w', cam))
  {
    EventsAfter(w, op, cam);
    ActivityAfter(w, op, cam);
    var story := Story(w.events, cam);
    assert story + [] == story;
  }

  lemma {:induction false} StoryKept(w: Watch, op: Op, cam: string)
    requires StoryMatches(w, cam)
    ensures StoryMatches(Do(w, op), cam) <==> !(op == Register(cam) && IsActive(w, cam))
    ensures StoryMatches(Do(w, op), cam) <==> !StorySpoilt(Do(w, op), cam)
  {
    StoryAfter(w, op, cam);
    OneMoreEvent(Story(w.events, cam), IsActive(Do(w, op), cam));
  }

  lemma {:induction false} StoryStaysSpoilt(w: Watch, op: Op, cam: string)
    requires StorySpoilt(w, cam)
    ensures StorySpoilt(Do(w, op), cam)
  {
    StoryAfter(w, op, cam);
    OneMoreEvent(Story(w.events, cam), IsActive(Do(w, op), cam));
  }

  lemma {:induction false} SizeAfter(cameras: map<string, Status>, cam: string, st: Status)
    ensures var was := cam in cameras && cameras[cam].isActive;
            |Active(cameras[cam := st])| == |Active(cameras)| + (if st.isActive then 1 else 0) - (if was then 1 else 0)
  {
    var a, b := Active(cameras), Active(cameras[cam := st]);
    if st.isActive {
      assert b == a + {cam};
    } else {
      assert b == a - {cam};
    }
  }

  lemma {:induction false} BalanceAfter(w: Watch, op: Op)
    requires IsActive(w, op.cam) ==> w.cameras[op.cam].consecutiveFailures < 3
    ensures Balance(Do(w, op).events) - |Active(Do(w, op).cameras)| ==
            Balance(w.events) - |Active(w.cameras)| + if op.Register? && IsActive(w, op.cam) then 1 else 0
  {
    var w' := Do(w, op);
    if op.cam in w'.cameras {
      SizeAfter(w.cameras, op.cam, w'.cameras[op.cam]);
    }
    EventsAfter(w, op, op.cam);
  }

  /** In every run, ups minus downs is the number of active cameras plus the number of times an
      active camera was registered again. */
  lemma {:induction false} BalanceExact(ops: seq<Op>)
    ensures Balance(Run(ops).events) == |Active(Run(ops).cameras)| + Disturbances(ops)
  {
    if ops != [] {
      var before, op := ops[..|ops| - 1], ops[|ops| - 1];
      BalanceExact(before);
      RecordsMatch(before, op.cam);
      BalanceAfter(Run(before), op);
    }
  }

  /** In every run, the up and down events of a camera alternate, starting with an up, and the last
      one is an up while the camera is active and a down, if any, while it is not, exactly when
      the camera was never registered again while it was active. */
  lemma {:induction false} EventsMatch(ops: seq<Op>, cam: string)
    ensures StoryMatches(Run(ops), cam) <==> !Disturbed(ops, cam)
    ensures StorySpoilt(Run(ops), cam) <==> Disturbed(ops, cam)
  {
    if ops != [] {
      var before, op := ops[..|ops| - 1], ops[|ops| - 1];
      EventsMatch(before, cam);
      RecordsMatch(before, cam);
      if Disturbed(before, cam) {
        StoryStaysSpoilt(Run(before), op, cam);
      } else {
        StoryKept(Run(before), op, cam);
      }
    }
  }

  lemma {:induction false} NobodyIsUp(ops: seq<Op>)
    ensures Active(Run(ops).cameras) == {} <==> forall k :: !IsUp(ops, k)
  {
    var active := Active(Run(ops).cameras);
    forall k: string
      ensures k in active <==> IsUp(ops, k)
    {
      RecordsMatch(ops, k);
      UpMeansRegistered(ops, k);
    }
    if k :| IsUp(ops, k) {
      assert k in active;
      assert exists j :: IsUp(ops, j);
    } else {
      assert forall k: string :: k in active ==> IsUp(ops, k);
    }
  }

  lemma {:induction false} UpMeansRegistered(ops: seq<Op>, cam: string)
    ensures IsUp(ops, cam) ==> Registered(ops, cam)
  {
  }

  /** What a call launches, in that order: an up exactly for a success of a registered camera that is not
      up, a down exactly for the third failure in a row of a camera that is; then the
      all-inactive callback exactly for a failure of a registered camera after which none is up. */
  lemma {:induction false} LaunchesExactly(ops: seq<Op>, op: Op)
    ensures var up := op.Success? && Registered(ops, op.cam) && !IsUp(ops, op.cam);
            var down := op.Failure? && IsUp(ops, op.cam) && RecentFailures(ops, op.cam) == 2;
            var nobody := op.Failure? && Registered(ops, op.cam) && forall k :: !IsUp(ops + [op], k);
            Run(ops + [op]).events ==
            Run(ops).events
            + (if up then [Up(op.cam)] else if down then [Down(op.cam)] else [])
            + (if nobody then [AllInactive] else [])
  {
    var m := Run(ops).cameras;
    RecordsMatch(ops, op.cam);
    UpMeansRegistered(ops, op.cam);
    NobodyIsUp(ops + [op]);
    assert (ops + [op])[..|ops|] == ops;
    assert Run(ops + [op]).cameras == Records(m, op);
    assert Run(ops + [op]).events == Run(ops).events + (Change(m, op) + if AllDown(m, op) then [AllInactive] else []);
  }

  /** A down is launched exactly by the third failure in a row of a camera that is up; an up exactly by a
      success of a registered camera that is not; and the all-inactive callback exactly by a failure
      of a registered camera after which no camera is up. */
  lemma {:induction false} EventsAtEdges(ops: seq<Op>, op: Op)
    ensures var launched := Run(ops + [op]).events[|Run(ops).events|..];
            && Run(ops).events <= Run(ops + [op]).events
            && (forall k :: Down(k) in launched <==> op == Failure(k) && IsUp(ops, k) && RecentFailures(ops, k) == 2)
            && (forall k :: Up(k) in launched <==> op.Success? && op.cam == k && Registered(ops, k) && !IsUp(ops, k))
            && (AllInactive in launched <==>
                  op.Failure? && Registered(ops, op.cam) && forall k :: !IsUp(ops + [op], k))
  {
    RecordsMatch(ops, op.cam);
    assert (ops + [op])[..|ops|] == ops;
    var w, w' := Run(ops), Run(ops + [op]);
    assert w' == Do(w, op);
    assert w'.events[|w.events|..] == Launched(w.cameras, op);
    NobodyIsUp(ops + [op]);
  }

  /** Registering an active camera again loses a down: two ups follow each other. */
  lemma {:induction false} ReRegistrationBreaks(cam: string)
    ensures Story(Run([Register(cam), Success(cam, 0), Register(cam), Success(cam, 1)]).events, cam) == [true, true]
  {
    var ops := [Register(cam), Success(cam, 0), Register(cam), Success(cam, 1)];
    assert ops[..3][..2] == ops[..2] && ops[..2][..1] == ops[..1] && ops[..1][..0] == [];
    assert Run(ops[..1]) == Do(Watch(map[], []), Register(cam));
    assert Run(ops[..1]).events == [] && Run(ops[..2]).events == [Up(cam)];
    assert Run(ops[..3]).cameras[cam] == NEW_STATUS && Run(ops[..3]).events == [Up(cam)];
    assert Run(ops).events == [Up(cam)] + [Up(cam)];
    EventAppended([], Up(cam), cam);
    EventAppended([Up(cam)], Up(cam), cam);
  }

  // ----- the class -----

  class Monitor {
    var cameras: map<string, Status>
    var events: seq<Event>   // the callbacks launched so far

    function View(): Watch
      reads this
    {
      Watch(cameras, events)
    }

    constructor ()
      ensures View() == Run([])
    {
      cameras, events := map[], [];
    }

    method RegisterCamera(cam: string)
      modifies this
      ensures View() == Do(old(View()), Register(cam))
    {
      cameras := cameras[cam := Status(false, 0, 0, false)];
    }

    method RecordSuccess(cam: string, now: int)
      modifies this
      ensures View() == Do(old(View()), Success(cam, now))
    {
      if cam !in cameras {
        return;
      }
      var wasInactive := !cameras[cam].isActive;
      cameras := cameras[cam := cameras[cam].(lastSuccess := now)];
      cameras := cameras[cam := cameras[cam].(consecutiveFailures := 0)];
      cameras := cameras[cam := cameras[cam].(isActive := true)];
      cameras := cameras[cam := cameras[cam].(hasError := false)];
      if wasInactive {
        events := events + [Up(cam)];
      }
    }

    method RecordFailure(cam: string)
      modifies this
      ensures View() == Do(old(View()), Failure(cam))
    {
      if cam !in cameras {
        return;
      }
      var wasActive := cameras[cam].isActive;
      cameras := cameras[cam := cameras[cam].(consecutiveFailures := cameras[cam].consecutiveFailures + 1)];
      cameras := cameras[cam := cameras[cam].(hasError := true)];
      if cameras[cam].consecutiveFailures >= 3 {
        cameras := cameras[cam := cameras[cam].(isActive := false)];
        if wasActive {
          events := events + [Down(cam)];
        }
      }
      var count := CountActiveCameras();
      assert count == 0 <==> Active(cameras) == {};
      if count == 0 {
        events := events + [AllInactive];
      }
    }

    /** Visits the cameras in any order. */
    method CountActiveCameras() returns (count: nat)
      ensures count == |Active(cameras)|
    {
      count := 0;
      var left := cameras.Keys;
      ghost var counted: set<string> := {};
      while left != {}
        invariant left <= cameras.Keys
        invariant counted == set c | c in cameras && c !in left && cameras[c].isActive
        invariant count == |counted|
        decreases |left|
      {
        var cam :| cam in left;
        left := left - {cam};
        if cameras[cam].isActive {
          counted := counted + {cam};
          count := count + 1;
        }
      }
      assert counted == Active(cameras);
    }
  }
}
