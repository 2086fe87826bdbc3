/**
 Publishing book snapshots to concurrent readers: three nodes with reference counts, one writer, any number
 of readers (book_snapshot.hpp, book_snapshot.cpp). Every atomic access is one step, the capture overwrites a
 node one cell at a time, and steps of different threads interleave in any order.
 */
module Snapshots {

  const NUM_NODES: nat := 3

  /** The fields of a snapshot, flattened; cell 0 is the book's sequence number. */
  type Image = seq<int>

  datatype Writer =
    | Idle
    | Scanning(known: nat, next: nat, image: Image)
    | Capturing(node: nat, done: nat, image: Image)
    | Counting

  /** Where one reader stands in get_snapshot; `seen` is the publication that was current at its load. */
  datatype Reader =
    | Away
    | Loaded(node: nat, seen: nat)
    | Pinned(node: nat, seen: nat)
    | Undoing(node: nat, seen: nat)
    | Holding(node: nat, seen: nat)

  /** Between increment and decrement. */
  predicate Pinning(pc: Reader) {
    pc.Pinned? || pc.Undoing? || pc.Holding?
  }

  function PinsIn(readers: map<nat, Reader>, n: nat): set<nat> {
    set r | r in readers && Pinning(readers[r]) && readers[r].node == n
  }

  /** `log` lists every image ever published, the initial zeroed one first. */
  datatype State = State(
    width: nat, current: nat, refs: seq<int>, nodes: seq<Image>, writer: Writer, readers: map<nat, Reader>,
    log: seq<Image>, updates: nat, skipped: nat)
  {
    function Pc(r: nat): Reader {
      if r in readers then readers[r] else Away
    }

    /** The readers that a node's reference count should count. */
    function Pins(n: nat): set<nat> {
      PinsIn(readers, n)
    }

    function Latest(): nat
      requires log != []
    {
      |log| - 1
    }

    function Goes(r: nat, pc: Reader): State {
      this.(readers := readers[r := pc])
    }

    function Refer(n: nat, d: int): State
      requires n < |refs|
    {
      this.(refs := refs[n := refs[n] + d])
    }
  }

  datatype Event =
    | Offer(image: Image)
    | Scan
    | WriteCell
    | Publish
    | Count
    | Load(r: nat)
    | Pin(r: nat)
    | Validate(r: nat)
    | Undo(r: nat)
    | Release(r: nat)

  predicate WriterFits(w: Writer, width: nat) {
    match w
    case Idle => true
    case Scanning(known, next, image) => known < NUM_NODES && next <= NUM_NODES && |image| == width
    case Capturing(node, done, image) => node < NUM_NODES && done <= width && |image| == width
    case Counting => true
  }

  predicate ReaderFits(pc: Reader, published: nat) {
    pc.Away? || (pc.node < NUM_NODES && pc.seen < published)
  }

  ghost predicate Fits(s: State) {
    && s.width > 0 && s.current < NUM_NODES && |s.refs| == |s.nodes| == NUM_NODES && s.log != []
    && (forall n :: 0 <= n < NUM_NODES ==> |s.nodes[n]| == s.width)
    && (forall v :: 0 <= v < |s.log| ==> |s.log[v]| == s.width)
    && WriterFits(s.writer, s.width)
    && (forall r :: r in s.readers ==> ReaderFits(s.readers[r], |s.log|))
  }

  function Zeroed(width: nat): Image {
    seq(width, _ => 0)
  }

  function Init(width: nat): State {
    State(width, 0, [0, 0, 0], [Zeroed(width), Zeroed(width), Zeroed(width)], Idle, map[], [Zeroed(width)], 0, 0)
  }

  /** update is called: find_free_node loads the current node. The book's sequence number never decreases. */
  ghost function OfferTo(s: State, image: Image): State
    requires Fits(s)
  {
    if s.writer.Idle? && |image| == s.width && s.log[s.Latest()][0] <= image[0] then
      s.(writer := Scanning(s.current, 0, image))
    else s
  }

  /** One node looked at; when none is free the update is skipped. */
  ghost function ScanOne(s: State): State
    requires Fits(s)
  {
    match s.writer
    case Scanning(known, next, image) =>
      if next == NUM_NODES then s.(writer := Idle, skipped := s.skipped + 1)
      else if next != known && s.refs[next] == 0 then s.(writer := Capturing(next, 0, image))
      else s.(writer := Scanning(known, next + 1, image))
    case _ => s
  }

  /** One cell of the capture. */
  ghost function WriteOne(s: State): State
    requires Fits(s)
  {
    match s.writer
    case Capturing(node, done, image) =>
      if done < s.width then
        s.(nodes := s.nodes[node := s.nodes[node][done := image[done]]], writer := Capturing(node, done + 1, image))
      else s
    case _ => s
  }

  ghost function PublishNode(s: State): State
    requires Fits(s)
  {
    match s.writer
    case Capturing(node, done, image) =>
      if done == s.width then s.(current := node, log := s.log + [image], writer := Counting) else s
    case _ => s
  }

  ghost function ReaderStep(s: State, e: Event): State
    requires Fits(s)
  {
    match e
    case Load(r) =>
      if s.Pc(r).Away? then s.Goes(r, Loaded(s.current, s.Latest())) else s
    case Pin(r) =>
      var pc := s.Pc(r);
      if pc.Loaded? then s.Refer(pc.node, 1).Goes(r, Pinned(pc.node, pc.seen)) else s
    case Validate(r) =>
      var pc := s.Pc(r);
      if !pc.Pinned? then s
      else if pc.node == s.current then s.Goes(r, Holding(pc.node, s.Latest()))
      else s.Goes(r, Undoing(pc.node, pc.seen))
    case Undo(r) =>
      var pc := s.Pc(r);
      if pc.Undoing? then s.Refer(pc.node, -1).Goes(r, Away) else s
    case Release(r) =>
      var pc := s.Pc(r);
      if pc.Holding? then s.Refer(pc.node, -1).Goes(r, Away) else s
    case _ => s
  }

  /** One step of one thread; a thread that is not at the point the event names does nothing. */
  ghost function Step(s: State, e: Event): State
    requires Fits(s)
  {
    match e
    case Offer(image) => OfferTo(s, image)
    case Scan => ScanOne(s)
    case WriteCell => WriteOne(s)
    case Publish => PublishNode(s)
    case Count => if s.writer.Counting? then s.(writer := Idle, updates := s.updates + 1) else s
    case _ => ReaderStep(s, e)
  }

  lemma {:induction false} StepFits(s: State, e: Event)
    requires Fits(s)
    ensures Fits(Step(s, e)) && Step(s, e).width == s.width
  {
  }

  /** The state after any interleaving. */
  ghost function After(width: nat, es: seq<Event>): (s: State)
    requires width > 0
    ensures Fits(s) && s.width == width
  {
    if es == [] then Init(width)
    else
      var s := After(width, es[..|es| - 1]);
      StepFits(s, es[|es| - 1]);
      Step(s, es[|es| - 1])
  }

  // ----- the invariant -----

  /** Reference counts are exact. */
  ghost predicate Counted(s: State)
    requires Fits(s)
  {
    forall n :: 0 <= n < NUM_NODES ==> s.refs[n] == |s.Pins(n)|
  }

  ghost predicate WriterOk(s: State)
    requires Fits(s)
  {
    match s.writer
    case Scanning(known, next, image) => known == s.current && s.log[s.Latest()][0] <= image[0]
    case Capturing(node, done, image) =>
      && node != s.current && s.log[s.Latest()][0] <= image[0] && s.nodes[node][..done] == image[..done]
      && forall r :: r in s.readers && s.readers[r].Holding? ==> s.readers[r].node != node
    case _ => true
  }

  ghost predicate ReaderOk(s: State, pc: Reader)
    requires Fits(s) && ReaderFits(pc, |s.log|)
  {
    match pc
    case Away => true
    case Loaded(node, seen) => seen == s.Latest() ==> node == s.current
    case Pinned(node, seen) => seen == s.Latest() ==> node == s.current
    case Undoing(node, seen) => seen < s.Latest()
    case Holding(node, seen) => s.nodes[node] == s.log[seen]
  }

  ghost predicate Inv(s: State) {
    && Fits(s) && Counted(s) && WriterOk(s)
    && s.nodes[s.current] == s.log[s.Latest()]
    && (forall r :: r in s.readers ==> ReaderOk(s, s.readers[r]))
    && (forall v, w :: 0 <= v <= w < |s.log| ==> s.log[v][0] <= s.log[w][0])
  }

  function Pinned1(pc: Reader, n: nat): int {
    if Pinning(pc) && pc.node == n then 1 else 0
  }

  /** One reader moved, and the counts moved with it. */
  lemma {:induction false} Recount(s: State, t: State, r: nat, pc: Reader)
    requires Fits(s) && Fits(t) && Counted(s) && t.readers == s.readers[r := pc]
    requires forall n :: 0 <= n < NUM_NODES ==> t.refs[n] == s.refs[n] + Pinned1(pc, n) - Pinned1(s.Pc(r), n)
    ensures Counted(t)
  {
    forall n | 0 <= n < NUM_NODES ensures t.refs[n] == |t.Pins(n)| {
      PinsMove(s.readers, r, pc, n);
    }
  }

  lemma {:induction false} PinsMove(readers: map<nat, Reader>, r: nat, pc: Reader, n: nat)
    ensures |PinsIn(readers[r := pc], n)|
            == |PinsIn(readers, n)| + Pinned1(pc, n) - if r in readers then Pinned1(readers[r], n) else 0
  {
    var was, now := PinsIn(readers, n), PinsIn(readers[r := pc], n);
    forall x | x != r ensures x in now <==> x in was {
    }
    assert r in was <==> r in readers && Pinned1(readers[r], n) == 1;
    assert r in now <==> Pinned1(pc, n) == 1;
    hide PinsIn;
    SwapOne(was, now, r);
  }

  lemma {:induction false} SwapOne(was: set<nat>, now: set<nat>, r: nat)
    requires forall x :: x != r ==> (x in now <==> x in was)
    ensures |now| == |was| + (if r in now then 1 else 0) - (if r in was then 1 else 0)
  {
    var others := was - {r};
    assert now == if r in now then others + {r} else others;
    assert was == if r in was then others + {r} else others;
  }

  lemma {:induction false} LoadKeeps(s: State, r: nat)
    requires Inv(s)
    ensures Inv(Step(s, Load(r)))
  {
    if s.Pc(r).Away? {
      Recount(s, Step(s, Load(r)), r, Loaded(s.current, s.Latest()));
    }
  }

  lemma {:induction false} PinKeeps(s: State, r: nat)
    requires Inv(s)
    ensures Inv(Step(s, Pin(r)))
  {
    var pc := s.Pc(r);
    if pc.Loaded? {
      Recount(s, Step(s, Pin(r)), r, Pinned(pc.node, pc.seen));
    }
  }

  lemma {:induction false} ValidateKeeps(s: State, r: nat)
    requires Inv(s)
    ensures Inv(Step(s, Validate(r)))
  {
    if s.Pc(r).Pinned? {
      Recount(s, Step(s, Validate(r)), r, Step(s, Validate(r)).Pc(r));
    }
  }

  lemma {:induction false} UndoKeeps(s: State, r: nat)
    requires Inv(s)
    ensures Inv(Step(s, Undo(r)))
  {
    hide PinsIn;
    if s.Pc(r).Undoing? {
      Recount(s, Step(s, Undo(r)), r, Away);
    }
  }

  lemma {:induction false} ReleaseKeeps(s: State, r: nat)
    requires Inv(s)
    ensures Inv(Step(s, Release(r)))
  {
    hide PinsIn;
    if s.Pc(r).Holding? {
      Recount(s, Step(s, Release(r)), r, Away);
    }
  }

  /** A count of zero means nobody pins the node, so nobody holds it. */
  lemma {:induction false} UnpinnedUnheld(s: State, n: nat)
    requires Fits(s) && Counted(s) && n < NUM_NODES && s.refs[n] == 0
    ensures forall r :: r in s.readers && Pinning(s.readers[r]) ==> s.readers[r].node != n
  {
    forall r | r in s.readers && Pinning(s.readers[r]) ensures s.readers[r].node != n {
      assert r !in s.Pins(n);
    }
  }

  /** Steps that move no reader and no count leave the counts exact. */
  lemma {:induction false} SameReaders(s: State, t: State)
    requires Fits(s) && Fits(t) && Counted(s) && t.readers == s.readers && t.refs == s.refs
    ensures Counted(t)
  {
  }

  lemma {:induction false} ScanKeeps(s: State)
    requires Inv(s)
    ensures Inv(ScanOne(s))
  {
    SameReaders(s, ScanOne(s));
    if s.writer.Scanning? && s.writer.next < NUM_NODES && s.refs[s.writer.next] == 0 {
      UnpinnedUnheld(s, s.writer.next);
    }
  }

  lemma {:induction false} WriteKeeps(s: State)
    requires Inv(s)
    ensures Inv(WriteOne(s))
  {
  }

  lemma {:induction false} PublishKeeps(s: State)
    requires Inv(s)
    ensures Inv(PublishNode(s))
  {
  }

  lemma {:induction false} StepKeeps(s: State, e: Event)
    requires Inv(s)
    ensures Inv(Step(s, e))
  {
    match e
    case Load(r) => LoadKeeps(s, r);
    case Pin(r) => PinKeeps(s, r);
    case Validate(r) => ValidateKeeps(s, r);
    case Undo(r) => UndoKeeps(s, r);
    case Release(r) => ReleaseKeeps(s, r);
    case Scan => ScanKeeps(s);
    case WriteCell => WriteKeeps(s);
    case Publish => PublishKeeps(s);
    case _ => SameReaders(s, Step(s, e));
  }

  /** Every reachable state satisfies the invariant, whatever the interleaving. */
  lemma {:induction false} AlwaysInv(width: nat, es: seq<Event>)
    requires width > 0
    ensures Inv(After(width, es))
  {
    if es == [] {
      var s := Init(width);
      assert forall n :: s.Pins(n) == {};
    } else {
      AlwaysInv(width, es[..|es| - 1]);
      StepKeeps(After(width, es[..|es| - 1]), es[|es| - 1]);
    }
  }

  lemma {:induction false} AfterNext(width: nat, es: seq<Event>, e: Event)
    requires width > 0
    ensures After(width, es + [e]) == Step(After(width, es), e)
  {
  }

  lemma {:induction false} MoreNext(width: nat, es: seq<Event>, more: seq<Event>)
    requires width > 0 && more != []
    ensures After(width, es + more) == Step(After(width, es + more[..|more| - 1]), more[|more| - 1])
  {
    assert es + more == (es + more[..|more| - 1]) + [more[|more| - 1]];
    AfterNext(width, es + more[..|more| - 1], more[|more| - 1]);
  }

  // ----- safety -----

  /** The nodes that readers may be looking at. */
  ghost predicate InView(s: State, n: nat) {
    n == s.current || exists r :: r in s.readers && s.readers[r].Holding? && s.readers[r].node == n
  }

  lemma {:induction false} StepSpares(s: State, e: Event, n: nat)
    requires Inv(s) && n < NUM_NODES && InView(s, n)
    ensures Step(s, e).nodes[n] == s.nodes[n]
  {
  }

  /** No step of anyone changes the current node or a node someone holds. */
  lemma {:induction false} NeverOverwritten(width: nat, es: seq<Event>, e: Event, n: nat)
    requires width > 0 && n < NUM_NODES && InView(After(width, es), n)
    ensures After(width, es + [e]).nodes[n] == After(width, es).nodes[n]
  {
    AlwaysInv(width, es);
    AfterNext(width, es, e);
    StepSpares(After(width, es), e, n);
    hide After, Step, Inv, InView;
  }

  /** Reference counts are never off, and a held node holds one complete published image. */
  lemma {:induction false} CountsAndImages(width: nat, es: seq<Event>)
    requires width > 0
    ensures var s := After(width, es);
            && (forall n :: 0 <= n < NUM_NODES ==> s.refs[n] == |s.Pins(n)|)
            && s.nodes[s.current] == s.log[s.Latest()]
            && (forall r :: r in s.readers && s.readers[r].Holding? ==>
                  s.nodes[s.readers[r].node] == s.log[s.readers[r].seen])
  {
    AlwaysInv(width, es);
    var s := After(width, es);
    forall r | r in s.readers && s.readers[r].Holding? ensures s.nodes[s.readers[r].node] == s.log[s.readers[r].seen] {
      assert ReaderOk(s, s.readers[r]);
    }
  }

  /** What active_readers reports. */
  function ActiveReaders(s: State): int
    requires |s.refs| == NUM_NODES
  {
    s.refs[0] + s.refs[1] + s.refs[2]
  }

  /** It is the number of readers between increment and decrement. */
  lemma {:induction false} ActiveReadersAre(width: nat, es: seq<Event>)
    requires width > 0
    ensures var s := After(width, es);
            ActiveReaders(s) == |set r | r in s.readers && Pinning(s.readers[r])|
  {
    AlwaysInv(width, es);
    var s := After(width, es);
    hide After;
    var all := set r | r in s.readers && Pinning(s.readers[r]);
    forall r | r in all ensures r in s.Pins(0) || r in s.Pins(1) || r in s.Pins(2) {
      assert ReaderFits(s.readers[r], |s.log|);
    }
    assert all == s.Pins(0) + s.Pins(1) + s.Pins(2);
    assert s.Pins(0) !! s.Pins(1) && (s.Pins(0) + s.Pins(1)) !! s.Pins(2);
  }

  lemma {:induction false} LogGrows(s: State, e: Event)
    requires Fits(s)
    ensures s.log <= Step(s, e).log
  {
  }

  lemma {:induction false} StepHolds(s: State, e: Event, r: nat)
    requires Inv(s) && s.Pc(r).Holding? && e != Release(r)
    ensures var t := Step(s, e); t.Pc(r) == s.Pc(r) && t.nodes[s.Pc(r).node] == s.nodes[s.Pc(r).node]
  {
  }

  /** What a reader got stays exactly that, whatever everyone else does, until it releases. */
  lemma {:induction false} HeldUntilReleased(width: nat, es: seq<Event>, more: seq<Event>, r: nat)
    requires width > 0 && After(width, es).Pc(r).Holding? && Release(r) !in more
    ensures var s, t := After(width, es), After(width, es + more);
            t.Pc(r) == s.Pc(r) && t.nodes[s.Pc(r).node] == s.nodes[s.Pc(r).node] && s.log <= t.log
  {
    if more == [] {
      assert es + more == es;
    } else {
      var before, e := more[..|more| - 1], more[|more| - 1];
      assert e in more;
      HeldUntilReleased(width, es, before, r);
      MoreNext(width, es, more);
      AlwaysInv(width, es + before);
      LogGrows(After(width, es + before), e);
      StepHolds(After(width, es + before), e, r);
      hide Step, Inv, After;
    }
  }

  ghost predicate NotBefore(pc: Reader, v: nat) {
    pc.Holding? ==> v <= pc.seen
  }

  lemma {:induction false} StepNotBefore(s: State, e: Event, r: nat, v: nat)
    requires Fits(s) && v < |s.log| && NotBefore(s.Pc(r), v)
    ensures NotBefore(Step(s, e).Pc(r), v)
  {
  }

  lemma {:induction false} LaterNotBefore(width: nat, es: seq<Event>, more: seq<Event>, r: nat)
    requires width > 0 && After(width, es).Pc(r).Holding?
    ensures After(width, es).log <= After(width, es + more).log
    ensures NotBefore(After(width, es + more).Pc(r), After(width, es).Pc(r).seen)
  {
    if more == [] {
      assert es + more == es;
    } else {
      var before, e := more[..|more| - 1], more[|more| - 1];
      LaterNotBefore(width, es, before, r);
      MoreNext(width, es, more);
      var s, t := After(width, es), After(width, es + before);
      assert s.Pc(r).seen < |s.log|;
      LogGrows(t, e);
      StepNotBefore(t, e, r, s.Pc(r).seen);
      hide Step, After;
    }
  }

  /** One reader's successive snapshots never go back in publication order or in book sequence number. */
  lemma {:induction false} NeverBackwards(width: nat, es: seq<Event>, more: seq<Event>, r: nat)
    requires width > 0 && After(width, es).Pc(r).Holding? && After(width, es + more).Pc(r).Holding?
    ensures var s, t := After(width, es), After(width, es + more);
            && s.log <= t.log && s.Pc(r).seen <= t.Pc(r).seen
            && t.log[s.Pc(r).seen][0] <= t.log[t.Pc(r).seen][0]
  {
    LaterNotBefore(width, es, more, r);
    AlwaysInv(width, es + more);
    hide After;
  }

  lemma {:induction false} LogKept(width: nat, es: seq<Event>, more: seq<Event>)
    requires width > 0
    ensures After(width, es).log <= After(width, es + more).log
  {
    if more == [] {
      assert es + more == es;
    } else {
      LogKept(width, es, more[..|more| - 1]);
      MoreNext(width, es, more);
      LogGrows(After(width, es + more[..|more| - 1]), more[|more| - 1]);
      hide Step, After;
    }
  }

  /** A validation returns nothing older than any snapshot that any reader has got before it. */
  lemma {:induction false} LaterValidation(width: nat, es: seq<Event>, more: seq<Event>, q: nat, r: nat)
    requires width > 0 && After(width, es).Pc(q).Holding?
    requires var t := After(width, es + more); t.Pc(r).Pinned? && t.Pc(r).node == t.current
    ensures var s, u := After(width, es), After(width, es + more + [Validate(r)]);
            && u.Pc(r).Holding? && s.log <= u.log && s.Pc(q).seen <= u.Pc(r).seen
            && u.log[s.Pc(q).seen][0] <= u.log[u.Pc(r).seen][0]
  {
    LogKept(width, es, more);
    AfterNext(width, es + more, Validate(r));
    AlwaysInv(width, es + more + [Validate(r)]);
    hide After;
  }

  // ----- progress -----

  /** The publication a reader has most recently looked for. */
  ghost function Sought(s: State, r: nat): nat
    requires Fits(s)
  {
    if s.Pc(r).Loaded? || s.Pc(r).Pinned? then s.Pc(r).seen else s.Latest()
  }

  predicate LosesRace(s: State, e: Event, r: nat) {
    e == Validate(r) && s.Pc(r).Pinned? && s.Pc(r).node != s.current
  }

  /** How often reader r lost the race and had to retry. */
  ghost function Failures(width: nat, es: seq<Event>, r: nat): nat
    requires width > 0
  {
    if es == [] then 0
    else
      var s, e := After(width, es[..|es| - 1]), es[|es| - 1];
      Failures(width, es[..|es| - 1], r)
      + if LosesRace(s, e, r) then 1 else 0
  }

  /** Losing the race means something was published since the load. */
  lemma {:induction false} RaceStep(s: State, e: Event, r: nat)
    requires Inv(s)
    ensures Sought(Step(s, e), r) >= Sought(s, r) + if LosesRace(s, e, r) then 1 else 0
  {
    if r in s.readers {
      assert ReaderOk(s, s.readers[r]);
    }
    LogGrows(s, e);
  }

  /** A retry is always somebody's publication: no reader fails more often than the writer has published. */
  lemma {:induction false} RetriesBounded(width: nat, es: seq<Event>, r: nat)
    requires width > 0
    ensures Failures(width, es, r) <= Sought(After(width, es), r) <= After(width, es).Latest()
  {
    if es != [] {
      var before := es[..|es| - 1];
      RetriesBounded(width, before, r);
      AlwaysInv(width, before);
      RaceStep(After(width, before), es[|es| - 1], r);
      hide Step, Inv;
    }
  }

  ghost predicate CountedUp(s: State)
    requires Fits(s)
  {
    s.updates + (if s.writer.Counting? then 1 else 0) == s.Latest()
  }

  lemma {:induction false} StepCountedUp(s: State, e: Event)
    requires Fits(s) && CountedUp(s)
    ensures CountedUp(Step(s, e))
  {
  }

  /** update_count counts the publications. */
  lemma {:induction false} UpdatesCounted(width: nat, es: seq<Event>)
    requires width > 0
    ensures CountedUp(After(width, es))
  {
    if es != [] {
      UpdatesCounted(width, es[..|es| - 1]);
      StepCountedUp(After(width, es[..|es| - 1]), es[|es| - 1]);
      hide Step;
    }
  }

  /** At most one reader has an attempt or a handle in flight. */
  ghost predicate Solo(s: State) {
    forall q, r :: q in s.readers && r in s.readers && !s.readers[q].Away? && !s.readers[r].Away? ==> q == r
  }

  ghost predicate SoloRun(width: nat, es: seq<Event>)
    requires width > 0
  {
    Solo(After(width, es)) && (es == [] || SoloRun(width, es[..|es| - 1]))
  }

  predicate Behind(known: nat, next: nat, n: nat) {
    n < next && n != known
  }

  predicate Ahead(known: nat, next: nat, n: nat) {
    next <= n < NUM_NODES && n != known
  }

  /** The scan has passed at most one busy node, and then nobody is at a node still to be looked at. */
  ghost predicate OneBusy(s: State) {
    match s.writer
    case Scanning(known, next, _) =>
      && (forall a, b :: Behind(known, next, a) && Behind(known, next, b) ==> a == b)
      && (forall a, r | Behind(known, next, a) && r in s.readers && !s.readers[r].Away? ::
            !Ahead(known, next, s.readers[r].node))
    case _ => true
  }

  lemma {:induction false} TwoOthers(known: nat)
    requires known < NUM_NODES
    ensures exists a, b :: Behind(known, NUM_NODES, a) && Behind(known, NUM_NODES, b) && a != b
  {
    var a, b := if known == 0 then 1 else 0, if known == 2 then 1 else 2;
    assert Behind(known, NUM_NODES, a) && Behind(known, NUM_NODES, b);
  }

  /** A scanned node that is not free is pinned by somebody, and that is the only reader there is. */
  lemma {:induction false} ScanOneBusy(s: State)
    requires Inv(s) && Solo(s) && OneBusy(s)
    ensures OneBusy(ScanOne(s)) && ScanOne(s).skipped == s.skipped
  {
    if s.writer.Scanning? {
      var known, next := s.writer.known, s.writer.next;
      if next == NUM_NODES {
        TwoOthers(known);
      } else if next == known {
        BehindNext(known, next, next + 1);
      } else if s.refs[next] != 0 {
        assert s.Pins(next) != {};
        var r :| r in s.Pins(next);
        assert Ahead(known, next, next);
        assert forall a :: !Behind(known, next, a);
        BehindNext(known, next, next + 1);
      }
    }
  }

  lemma {:induction false} BehindNext(known: nat, next: nat, after: nat)
    requires after == next + 1
    ensures forall n :: Behind(known, after, n) <==> Behind(known, next, n) || (n == next && n != known)
    ensures forall n :: Ahead(known, after, n) <==> Ahead(known, next, n) && n != next
  {
  }

  lemma {:induction false} StepOneBusy(s: State, e: Event)
    requires Inv(s) && Solo(s) && OneBusy(s)
    ensures OneBusy(Step(s, e)) && Step(s, e).skipped == s.skipped
  {
    if e.Scan? {
      ScanOneBusy(s);
    }
  }

  /** With one reader at a time, no update is ever skipped. */
  lemma {:induction false} NoSkipAlone(width: nat, es: seq<Event>)
    requires width > 0 && SoloRun(width, es)
    ensures After(width, es).skipped == 0 && OneBusy(After(width, es))
  {
    if es != [] {
      var before := es[..|es| - 1];
      NoSkipAlone(width, before);
      AlwaysInv(width, before);
      StepOneBusy(After(width, before), es[|es| - 1]);
    }
  }

  // ----- when an update is skipped -----

  /** The nodes that the writer's latest scan has found pinned when it looked at them. */
  ghost function FoundPinned(width: nat, es: seq<Event>): set<nat>
    requires width > 0
  {
    if es == [] then {}
    else
      var before, e := es[..|es| - 1], es[|es| - 1];
      var s := After(width, before);
      if e.Offer? && s.writer.Idle? then {}
      else if e.Scan? && s.writer.Scanning? && s.writer.next < NUM_NODES && s.writer.next != s.current
              && s.Pins(s.writer.next) != {} then FoundPinned(width, before) + {s.writer.next}
      else FoundPinned(width, before)
  }

  /** While a scan runs, every node it has passed was found pinned. */
  ghost predicate PassedPinned(s: State, found: set<nat>) {
    match s.writer
    case Scanning(known, next, _) => forall n :: Behind(known, next, n) <==> n in found
    case _ => true
  }

  lemma {:induction false} ScanPassed(s: State, found: set<nat>)
    requires Inv(s) && PassedPinned(s, found) && s.writer.Scanning?
    ensures var next := s.writer.next;
            PassedPinned(ScanOne(s),
                         if next < NUM_NODES && next != s.current && s.Pins(next) != {} then found + {next} else found)
  {
    var known, next := s.writer.known, s.writer.next;
    BehindNext(known, next, next + 1);
    if next < NUM_NODES {
      assert s.refs[next] == |s.Pins(next)|;
    }
  }

  lemma {:induction false} ScansPassed(width: nat, es: seq<Event>)
    requires width > 0
    ensures PassedPinned(After(width, es), FoundPinned(width, es))
  {
    if es != [] {
      var before, e := es[..|es| - 1], es[|es| - 1];
      var s := After(width, before);
      ScansPassed(width, before);
      AlwaysInv(width, before);
      if e.Scan? && s.writer.Scanning? {
        ScanPassed(s, FoundPinned(width, before));
      }
    }
  }

  ghost predicate AllFound(s: State, found: set<nat>) {
    forall n :: 0 <= n < NUM_NODES && n != s.current ==> n in found
  }

  ghost predicate EndsScan(s: State, e: Event)
    requires Fits(s)
  {
    s.writer.Scanning? && !Step(s, e).writer.Scanning?
  }

  lemma {:induction false} StepSkips(s: State, e: Event, found: set<nat>)
    requires Inv(s) && PassedPinned(s, found)
    ensures s.skipped <= Step(s, e).skipped <= s.skipped + 1
    ensures Step(s, e).skipped == s.skipped + 1 <==> EndsScan(s, e) && AllFound(s, found)
  {
    if e.Scan? && s.writer.Scanning? && s.writer.next < NUM_NODES {
      assert !Behind(s.writer.known, s.writer.next, s.writer.next);
    } else if e.Scan? && s.writer.Scanning? {
      forall n: nat | n < NUM_NODES && n != s.current ensures n in found {
        assert Behind(s.writer.known, s.writer.next, n);
      }
    }
  }

  /**
   Whatever runs in between: an update is skipped exactly when its scan ends having found each node other than
   the current one pinned at the moment it looked.
   */
  lemma {:induction false} SkippedIff(width: nat, es: seq<Event>, e: Event)
    requires width > 0
    ensures var s, t := After(width, es), After(width, es + [e]);
            && s.skipped <= t.skipped <= s.skipped + 1
            && (t.skipped == s.skipped + 1 <==> EndsScan(s, e) && AllFound(s, FoundPinned(width, es)))
  {
    AlwaysInv(width, es);
    ScansPassed(width, es);
    AfterNext(width, es, e);
    StepSkips(After(width, es), e, FoundPinned(width, es));
    hide *;
  }

  // ----- calls that run alone -----

  /** The state after some steps from a given one. */
  ghost function Then(s: State, es: seq<Event>): (t: State)
    requires Fits(s)
    ensures Fits(t)
    decreases |es|
  {
    if es == [] then s
    else
      StepFits(s, es[0]);
      Then(Step(s, es[0]), es[1..])
  }

  lemma {:induction false} ThenFirst(s: State, es: seq<Event>)
    requires Fits(s) && es != []
    ensures Fits(Step(s, es[0])) && Then(s, es) == Then(Step(s, es[0]), es[1..])
  {
    StepFits(s, es[0]);
  }

  lemma {:induction false} ThenNone(s: State)
    requires Fits(s)
    ensures Then(s, []) == s
  {
  }

  lemma {:induction false} ThenConcat(s: State, a: seq<Event>, b: seq<Event>)
    requires Fits(s)
    ensures Then(s, a + b) == Then(Then(s, a), b)
    decreases |a|
  {
    hide Step, Fits;
    if a == [] {
      assert a + b == b;
    } else {
      assert (a + b)[1..] == a[1..] + b;
      StepFits(s, a[0]);
      ThenConcat(Step(s, a[0]), a[1..], b);
    }
  }

  lemma {:induction false} AfterThen(width: nat, es: seq<Event>, more: seq<Event>)
    requires width > 0
    ensures After(width, es + more) == Then(After(width, es), more)
    decreases |more|
  {
    hide Step, Fits;
    if more == [] {
      assert es + more == es;
    } else {
      AfterNext(width, es, more[0]);
      assert es + more == (es + [more[0]]) + more[1..];
      AfterThen(width, es + [more[0]], more[1..]);
    }
  }

  /** get_snapshot with nobody in between: three steps, and the reader holds what is current. */
  function Acquire(r: nat): seq<Event> {
    [Load(r), Pin(r), Validate(r)]
  }

  ghost function Acquired(s: State, r: nat): State
    requires Fits(s)
  {
    s.Refer(s.current, 1).Goes(r, Holding(s.current, s.Latest()))
  }

  lemma {:induction false} AcquireAlone(s: State, r: nat)
    requires Fits(s) && s.Pc(r).Away?
    ensures Then(s, Acquire(r)) == Acquired(s, r)
  {
    var t := Step(s, Load(r));
    StepFits(s, Load(r));
    var u := Step(t, Pin(r));
    StepFits(t, Pin(r));
    var v := Step(u, Validate(r));
    StepFits(u, Validate(r));
    assert v == s.Refer(s.current, 1).Goes(r, Holding(s.current, s.Latest())) by {
      assert v.readers == s.readers[r := Holding(s.current, s.Latest())];
    }
    ThenFirst(s, Acquire(r));
    ThenFirst(t, [Pin(r), Validate(r)]);
    ThenFirst(u, [Validate(r)]);
    assert Acquire(r)[1..] == [Pin(r), Validate(r)] && [Pin(r), Validate(r)][1..] == [Validate(r)];
    hide Step, Then;
    assert [Validate(r)][1..] == [];
    ThenNone(v);
  }

  /** Acquired and released, with nobody in between: the counts are what they were. */
  lemma {:induction false} ReleaseAlone(s: State, r: nat)
    requires Fits(s) && s.Pc(r).Away?
    ensures Then(s, Acquire(r) + [Release(r)]) == s.Goes(r, Away)
  {
    AcquireAlone(s, r);
    ThenConcat(s, Acquire(r), [Release(r)]);
    var t := Acquired(s, r);
    ThenFirst(t, [Release(r)]);
    assert [Release(r)][1..] == [];
    ThenNone(Step(t, Release(r)));
    assert t.readers[r := Away] == s.readers[r := Away];
    assert Step(t, Release(r)).refs == s.refs;
  }

  /** In any reachable state a release, or an undo, takes the reader off its node, and changes nothing else. */
  lemma {:induction false} Released(width: nat, es: seq<Event>, r: nat, e: Event)
    requires width > 0
    requires var pc := After(width, es).Pc(r); (pc.Holding? && e == Release(r)) || (pc.Undoing? && e == Undo(r))
    ensures var s, t := After(width, es), After(width, es + [e]);
            && t.Pc(r).Away? && t == s.(refs := t.refs, readers := s.readers[r := Away])
            && (forall n :: 0 <= n < NUM_NODES ==>
                  && t.Pins(n) == s.Pins(n) - {r}
                  && t.refs[n] == s.refs[n] - if n == s.Pc(r).node then 1 else 0)
  {
    AfterNext(width, es, e);
    AlwaysInv(width, es);
    hide After;
  }

  /**
   A reader that finds the node no longer current undoes its increment and tries again: with nobody in between it
   then holds what is current, and the node it had pinned has one reference less.
   */
  lemma {:induction false} RetryAlone(s: State, r: nat)
    requires Fits(s) && s.Pc(r).Pinned? && s.Pc(r).node != s.current
    ensures Then(s, [Validate(r), Undo(r)] + Acquire(r))
            == Acquired(s.Refer(s.Pc(r).node, -1).Goes(r, Away), r)
  {
    var node := s.Pc(r).node;
    var t := Step(s, Validate(r));
    StepFits(s, Validate(r));
    var u := Step(t, Undo(r));
    StepFits(t, Undo(r));
    assert u == s.Refer(node, -1).Goes(r, Away) by {
      assert u.readers == s.readers[r := Away];
    }
    var turn := [Validate(r), Undo(r)];
    ThenConcat(s, turn, Acquire(r));
    ThenFirst(s, turn);
    ThenFirst(t, [Undo(r)]);
    assert turn[1..] == [Undo(r)] && [Undo(r)][1..] == [];
    ThenNone(u);
    AcquireAlone(u, r);
    hide Step, Then;
  }

  function Writes(n: nat): seq<Event> {
    seq(n, _ => WriteCell)
  }

  /** update with nobody in between; the scan takes at most four steps. */
  function Update(image: Image): seq<Event> {
    [Offer(image), Scan, Scan, Scan, Scan] + (Writes(|image|) + [Publish, Count])
  }

  /** The first node that is neither current nor counted, or NUM_NODES. */
  ghost function FreeNode(s: State): (n: nat)
    requires Fits(s)
    ensures n <= NUM_NODES && (n < NUM_NODES ==> n != s.current && s.refs[n] == 0)
    ensures forall m :: 0 <= m < n ==> m == s.current || s.refs[m] != 0
  {
    if s.current != 0 && s.refs[0] == 0 then 0
    else if s.current != 1 && s.refs[1] == 0 then 1
    else if s.current != 2 && s.refs[2] == 0 then 2
    else NUM_NODES
  }

  lemma {:induction false} ScansAlone(s: State)
    requires Fits(s) && s.writer.Scanning? && s.writer.known == s.current && s.writer.next == 0
    ensures Then(s, [Scan, Scan, Scan, Scan]) ==
            if FreeNode(s) == NUM_NODES then s.(writer := Idle, skipped := s.skipped + 1)
            else s.(writer := Capturing(FreeNode(s), 0, s.writer.image))
  {
    var a := ScanOne(s);
    StepFits(s, Scan);
    var b := ScanOne(a);
    StepFits(a, Scan);
    var c := ScanOne(b);
    StepFits(b, Scan);
    StepFits(c, Scan);
    var es := [Scan, Scan, Scan, Scan];
    assert es[1..] == [Scan, Scan, Scan] && es[1..][1..] == [Scan, Scan] && es[1..][1..][1..] == [Scan];
    assert es[1..][1..][1..][1..] == [];
    assert Then(s, es) == ScanOne(c);
  }

  lemma {:induction false} WritesAlone(s: State, n: nat)
    requires Fits(s)
    ensures !s.writer.Capturing? ==> Then(s, Writes(n)) == s
    ensures s.writer.Capturing? && s.writer.done + n == s.width ==>
              var w := s.writer;
              Then(s, Writes(n)) == s.(nodes := s.nodes[w.node := s.nodes[w.node][..w.done] + w.image[w.done..]],
                                       writer := Capturing(w.node, s.width, w.image))
    decreases n
  {
    if n == 0 {
      if s.writer.Capturing? && s.writer.done == s.width {
        var w := s.writer;
        assert s.nodes[w.node][..w.done] + w.image[w.done..] == s.nodes[w.node];
        assert s.nodes[w.node := s.nodes[w.node]] == s.nodes;
      }
    } else {
      assert Writes(n)[1..] == Writes(n - 1);
      StepFits(s, WriteCell);
      WritesAlone(WriteOne(s), n - 1);
      if s.writer.Capturing? && s.writer.done + n == s.width {
        var w, t := s.writer, WriteOne(s);
        assert t.nodes[w.node][..w.done + 1] + w.image[w.done + 1..] == s.nodes[w.node][..w.done] + w.image[w.done..];
      }
    }
  }

  lemma {:induction false} PublishAlone(s: State)
    requires Fits(s)
    ensures s.writer.Idle? ==> Then(s, [Publish, Count]) == s
    ensures s.writer.Capturing? && s.writer.done == s.width ==>
              Then(s, [Publish, Count]) ==
              s.(current := s.writer.node, log := s.log + [s.writer.image], writer := Idle, updates := s.updates + 1)
  {
    StepFits(s, Publish);
    assert [Publish, Count][1..] == [Count] && [Count][1..] == [];
  }

  ghost function Updated(s: State, image: Image): State
    requires Fits(s)
  {
    var n := FreeNode(s);
    if n == NUM_NODES then s.(skipped := s.skipped + 1)
    else s.(current := n, nodes := s.nodes[n := image], log := s.log + [image], updates := s.updates + 1)
  }

  /**
   An update that runs alone is skipped exactly when every node but the current one is counted; otherwise the
   first free node becomes current with exactly the image offered, and nothing else about the nodes, the
   counts or the readers changes.
   */
  lemma {:induction false} UpdateAlone(s: State, image: Image)
    requires Fits(s) && s.writer.Idle? && |image| == s.width && s.log[s.Latest()][0] <= image[0]
    ensures var t := Then(s, Update(image));
            && (t.skipped == s.skipped + 1 <==> forall m :: 0 <= m < NUM_NODES && m != s.current ==> s.refs[m] != 0)
            && t == Updated(s, image)
  {
    var offer, scans, writes := Offer(image), [Scan, Scan, Scan, Scan], Writes(|image|);
    var a := OfferTo(s, image);
    StepFits(s, offer);
    assert Update(image)[1..] == scans + (writes + [Publish, Count]);
    ThenConcat(a, scans, writes + [Publish, Count]);
    ScansAlone(a);
    var b := Then(a, scans);
    ThenConcat(b, writes, [Publish, Count]);
    WritesAlone(b, |image|);
    PublishAlone(Then(b, writes));
    if FreeNode(s) < NUM_NODES {
      assert s.nodes[FreeNode(s)][..0] + image[0..] == image;
    }
    hide Step;
  }

  lemma {:induction false} AfterAcquire(width: nat, es: seq<Event>, r: nat)
    requires width > 0 && After(width, es).Pc(r).Away?
    ensures After(width, es + Acquire(r)) == Acquired(After(width, es), r)
  {
    AfterThen(width, es, Acquire(r));
    AcquireAlone(After(width, es), r);
  }

  lemma {:induction false} AfterUpdate(width: nat, es: seq<Event>, image: Image)
    requires width > 0 && |image| == width
    requires var s := After(width, es); s.writer.Idle? && s.log[s.Latest()][0] <= image[0]
    ensures After(width, es + Update(image)) == Updated(After(width, es), image)
  {
    AfterThen(width, es, Update(image));
    UpdateAlone(After(width, es), image);
  }

  const FIRST_HELD := State(1, 0, [1, 0, 0], [[0], [0], [0]], Idle, map[0 := Holding(0, 0)], [[0]], 0, 0)
  const ONE_PUBLISHED := State(1, 1, [1, 0, 0], [[0], [1], [0]], Idle, map[0 := Holding(0, 0)], [[0], [1]], 1, 0)
  const BOTH_HELD :=
    State(1, 1, [1, 1, 0], [[0], [1], [0]], Idle, map[0 := Holding(0, 0), 1 := Holding(1, 1)], [[0], [1]], 1, 0)
  const TWO_PUBLISHED :=
    State(1, 2, [1, 1, 0], [[0], [1], [2]], Idle, map[0 := Holding(0, 0), 1 := Holding(1, 1)],
          [[0], [1], [2]], 2, 0)

  lemma {:induction false} FirstHandle()
    ensures After(1, Acquire(0)) == FIRST_HELD && After(1, Acquire(0) + Update([1])) == ONE_PUBLISHED
  {
    hide Step;
    assert Zeroed(1) == [0];
    assert [] + Acquire(0) == Acquire(0);
    AfterAcquire(1, [], 0);
    hide Acquire, Update;
    AfterUpdate(1, Acquire(0), [1]);
    hide After;
    assert Updated(FIRST_HELD, [1]) == ONE_PUBLISHED;
  }

  lemma {:induction false} SecondHandle(es: seq<Event>)
    requires After(1, es) == ONE_PUBLISHED
    ensures After(1, es + Acquire(1)) == BOTH_HELD && After(1, es + Acquire(1) + Update([2])) == TWO_PUBLISHED
  {
    hide Acquire, Update, After;
    AfterAcquire(1, es, 1);
    AfterUpdate(1, es + Acquire(1), [2]);
    assert Updated(BOTH_HELD, [2]) == TWO_PUBLISHED;
  }

  /** One reader keeps the initial node, a second one the next published: then the third update is skipped. */
  lemma {:induction false} TwoHandlesSkip()
    ensures var es := Acquire(0) + Update([1]) + Acquire(1) + Update([2]);
            After(1, es) == TWO_PUBLISHED && After(1, es + Update([3])) == TWO_PUBLISHED.(skipped := 1)
  {
    hide Acquire, Update, After;
    FirstHandle();
    SecondHandle(Acquire(0) + Update([1]));
    AfterUpdate(1, Acquire(0) + Update([1]) + Acquire(1) + Update([2]), [3]);
  }
}
