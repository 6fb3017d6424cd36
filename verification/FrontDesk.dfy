/** Several HTTPS requests at one worker session. The session holds one callback: every command that
    is started overwrites it, and whatever answer is dispatched goes to the callback that is held then.
    Answers arrive in the batches that a receive releases. */
module FrontDesk {
  import opened Common
  import opened Https
  import opened Routing

  /** A SessionMarusia looks at the front of a batch only. A SessionMQTT dispatches the whole batch, but
      never gets past a callback that throws. */
  datatype Kind = Marusia | Mqtt

  /** A document of a batch: the worker's answer to the command of request `r`, or to a ping. */
  datatype Item = PingAnswer | Reply(r: nat, answer: Event)

  /** What happens at a live worker session: request `r` starts its command, or a batch arrives.
      (Starting a command at a session that is not live does nothing at all.) */
  datatype Happening = Starts(r: nat) | Receives(batch: seq<Item>)

  /** The callback slot, the requests, which answers each was given, which commands went out and which
      of them were answered. `stuck`: a SessionMQTT in whose dispatch loop a callback has thrown. */
  datatype Desk = Desk(
    slot: Option<nat>,
    https: seq<Http>,
    got: seq<seq<nat>>,
    started: set<nat>,
    answered: set<nat>,
    stuck: bool)

  /** Before any command: each request is as routing left it. */
  function Open(asked: seq<Http>): Desk {
    Desk(None, asked, seq(|asked|, i => []), {}, {}, false)
  }

  function RepliesIn(batch: seq<Item>): set<nat> {
    set item | item in batch && item.Reply? :: item.r
  }

  predicate RepliesDiffer(batch: seq<Item>) {
    forall i, j :: 0 <= i < j < |batch| && batch[i].Reply? && batch[j].Reply? ==> batch[i].r != batch[j].r
  }

  /** Each request starts one command, and the worker answers each command once. */
  predicate Enabled(d: Desk, h: Happening) {
    match h
    case Starts(r) => r < |d.https| && r !in d.started
    case Receives(batch) =>
      && batch != [] && RepliesDiffer(batch)
      && RepliesIn(batch) <= d.started && RepliesIn(batch) !! d.answered
  }

  predicate Valid(d: Desk) {
    && |d.got| == |d.https|
    && (forall r :: r in d.started ==> r < |d.https|)
    && d.answered <= d.started
    && (d.slot.Some? ==> d.slot.value in d.started)
    && (d.slot.None? ==> d.started == {})
  }

  /** One document is dispatched: an answer goes to whoever holds the slot. */
  function Give(d: Desk, item: Item, kind: Kind): (d': Desk)
    requires Valid(d)
    ensures Valid(d') && |d'.https| == |d.https|
    ensures d'.slot == d.slot && d'.started == d.started && d'.answered == d.answered
  {
    if item.PingAnswer? || d.stuck || d.slot.None? then d
    else
      var t := d.slot.value;
      d.(https := d.https[t := Step(d.https[t], item.answer)], got := d.got[t := d.got[t] + [item.r]],
         stuck := kind.Mqtt? && Throws(d.https[t], item.answer))
  }

  function GiveAll(d: Desk, batch: seq<Item>, kind: Kind): (d': Desk)
    requires Valid(d)
    ensures Valid(d') && |d'.https| == |d.https|
    ensures d'.slot == d.slot && d'.started == d.started && d'.answered == d.answered
    decreases batch
  {
    if batch == [] then d else GiveAll(Give(d, batch[0], kind), batch[1..], kind)
  }

  function Happen(d: Desk, h: Happening, kind: Kind): (d': Desk)
    requires Valid(d) && Enabled(d, h)
    ensures Valid(d') && |d'.https| == |d.https|
  {
    match h
    case Starts(r) => d.(slot := Some(r), started := d.started + {r})
    case Receives(batch) =>
      var d1 := d.(answered := d.answered + RepliesIn(batch));
      if kind.Marusia? then Give(d1, batch[0], kind) else GiveAll(d1, batch, kind)
  }

  predicate Allowed(d: Desk, run: seq<Happening>, kind: Kind)
    requires Valid(d)
    decreases run
  {
    run == [] || (Enabled(d, run[0]) && Allowed(Happen(d, run[0], kind), run[1..], kind))
  }

  function After(d: Desk, run: seq<Happening>, kind: Kind): (d': Desk)
    requires Valid(d) && Allowed(d, run, kind)
    ensures Valid(d') && |d'.https| == |d.https|
    decreases run
  {
    if run == [] then d else After(Happen(d, run[0], kind), run[1..], kind)
  }

  // ------------------------------------------------------------------ what goes wrong

  /** The first failing run. Two requests at one text worker, the second started before the first
      answer; the worker is live and answers each command once. The second request is answered with the
      first one's text under its own ids, its own answer is thrown away, and the first gets none. */
  lemma OverlapSwapsAnswers(a: Http, b: Http, forA: string, forB: string, mqtt: seq<Worker>)
    requires a.body.Some? && b.body.Some? && b.responses == []
    ensures var e0, e1 := FromText(StaticMessage(forA), mqtt), FromText(StaticMessage(forB), mqtt);
            var run := [Starts(0), Starts(1), Receives([Reply(0, e0)]), Receives([Reply(1, e1)])];
            && Allowed(Open([a, b]), run, Marusia)
            && var d := After(Open([a, b]), run, Marusia);
               && d.https[0] == a && d.got == [[], [0, 1]]
               && |d.https[1].responses| == 1 && Echoes(d.https[1].responses[0], b.body.value)
               && d.https[1].responses[0].content == WorkerText(forA)
  {
    var e0, e1 := FromText(StaticMessage(forA), mqtt), FromText(StaticMessage(forB), mqtt);
    var d0 := Open([a, b]);
    var d1 := Happen(d0, Starts(0), Marusia);
    var d2 := Happen(d1, Starts(1), Marusia);
    assert d2.slot == Some(1) && d2.https == [a, b] && d2.got == [[], []];
    AloneInBatch(d2, 0, e0, Marusia);
    var d3 := Happen(d2, Receives([Reply(0, e0)]), Marusia);
    assert d3.https[0] == a && d3.https[1] == Step(b, e0) && d3.got[0] == [] && d3.got[1] == [0];
    AloneInBatch(d3, 1, e1, Marusia);
    var d4 := Happen(d3, Receives([Reply(1, e1)]), Marusia);
    assert d4.got[0] == [] && d4.got[1] == [0, 1] && d4.got == [[], [0, 1]];
    var last := [Receives([Reply(0, e0)]), Receives([Reply(1, e1)])];
    TwoHappenings(d2, last[0], last[1], Marusia);
    TwoThen(d0, Starts(0), Starts(1), last, Marusia);
    assert [Starts(0), Starts(1)] + last == [Starts(0), Starts(1), Receives([Reply(0, e0)]), Receives([Reply(1, e1)])];
  }

  /** An answer that is alone in its batch goes to whoever holds the slot, and to nobody else. */
  lemma AloneInBatch(d: Desk, r: nat, answer: Event, kind: Kind)
    requires Valid(d) && !d.stuck && r in d.started && r !in d.answered
    ensures Enabled(d, Receives([Reply(r, answer)]))
    ensures var t := d.slot.value;
            var d' := Happen(d, Receives([Reply(r, answer)]), kind);
            && d'.https[t] == Step(d.https[t], answer) && d'.got[t] == d.got[t] + [r]
            && d'.slot == d.slot && d'.started == d.started && d'.answered == d.answered + {r}
            && (kind.Marusia? ==> !d'.stuck)
            && (forall i :: 0 <= i < |d.https| && i != t ==> d'.https[i] == d.https[i] && d'.got[i] == d.got[i])
  {
    var batch := [Reply(r, answer)];
    assert batch[0] in batch && RepliesIn(batch) == {r};
    var d1 := d.(answered := d.answered + {r});
    assert batch[1..] == [] && GiveAll(d1, batch, kind) == GiveAll(Give(d1, batch[0], kind), batch[1..], kind);
    assert Happen(d, Receives(batch), kind) == Give(d1, Reply(r, answer), kind);
  }

  lemma OneHappening(d: Desk, h: Happening, kind: Kind)
    requires Valid(d) && Enabled(d, h)
    ensures Allowed(d, [h], kind) && After(d, [h], kind) == Happen(d, h, kind)
  {
    var rest := [h][1..];
    assert rest == [] && After(Happen(d, h, kind), rest, kind) == Happen(d, h, kind);
  }

  lemma TwoHappenings(d: Desk, h: Happening, i: Happening, kind: Kind)
    requires Valid(d) && Enabled(d, h) && Enabled(Happen(d, h, kind), i)
    ensures Allowed(d, [h, i], kind) && After(d, [h, i], kind) == Happen(Happen(d, h, kind), i, kind)
  {
    OneHappening(Happen(d, h, kind), i, kind);
    assert [h, i][1..] == [i];
  }

  lemma TwoThen(d: Desk, h: Happening, i: Happening, rest: seq<Happening>, kind: Kind)
    requires Valid(d) && Enabled(d, h) && Enabled(Happen(d, h, kind), i)
    requires Allowed(Happen(Happen(d, h, kind), i, kind), rest, kind)
    ensures Allowed(d, [h, i] + rest, kind)
    ensures After(d, [h, i] + rest, kind) == After(Happen(Happen(d, h, kind), i, kind), rest, kind)
  {
    assert ([h, i] + rest)[1..] == [i] + rest && ([i] + rest)[1..] == rest;
    assert Allowed(Happen(d, h, kind), [i] + rest, kind);
  }

  /** The second failing run: one request and nothing that overlaps, but the text worker's answer comes
      behind its ping answer in one receive. It is thrown away, and the request is never answered. */
  lemma AnswerBehindAPingIsLost(a: Http, answer: Event)
    requires a.body.Some?
    ensures var run := [Starts(0), Receives([PingAnswer, Reply(0, answer)])];
            && Allowed(Open([a]), run, Marusia) && NoOverlap(Open([a]), run, Marusia)
            && var d := After(Open([a]), run, Marusia);
               d.started == d.answered == {0} && d.https == [a] && d.got == [[]]
  {
    var batch := [PingAnswer, Reply(0, answer)];
    assert batch[1] in batch && RepliesIn(batch) == {0};
    var d0 := Open([a]);
    var d1 := Happen(d0, Starts(0), Marusia);
    assert d0.got == [[]] && Enabled(d1, Receives(batch));
    TwoHappenings(d0, Starts(0), Receives(batch), Marusia);
    var run := [Starts(0), Receives(batch)];
    assert run[1..] == [Receives(batch)] && run[1..][1..] == [];
    assert NoOverlap(d1, run[1..], Marusia);
  }

  // ------------------------------------------------------------------ one request: its window

  predicate NoStarts(run: seq<Happening>) {
    forall k :: 0 <= k < |run| ==> run[k].Receives?
  }

  /** The answers that stand at the front of their batches, in order: those a SessionMarusia dispatches. */
  function FrontAnswers(run: seq<Happening>): seq<nat> {
    if run == [] then []
    else
      var h := run[0];
      (if h.Receives? && h.batch != [] && h.batch[0].Reply? then [h.batch[0].r] else []) + FrontAnswers(run[1..])
  }

  lemma {:induction false} SlotOwnerGetsFronts(d: Desk, run: seq<Happening>, r: nat)
    requires Valid(d) && Allowed(d, run, Marusia) && NoStarts(run) && d.slot == Some(r) && !d.stuck
    ensures var d' := After(d, run, Marusia);
            d'.got[r] == d.got[r] + FrontAnswers(run) && d'.slot == Some(r) && !d'.stuck
    decreases run
  {
    if run != [] {
      var d1 := Happen(d, run[0], Marusia);
      assert run == [run[0]] + run[1..];
      SlotOwnerGetsFronts(d1, run[1..], r);
    }
  }

  lemma {:induction false} OthersGetNothing(d: Desk, run: seq<Happening>, r: nat)
    requires Valid(d) && Allowed(d, run, Marusia)
    requires r < |d.https| && r in d.started && d.slot != Some(r)
    ensures After(d, run, Marusia).got[r] == d.got[r] && After(d, run, Marusia).https[r] == d.https[r]
    decreases run
  {
    if run != [] {
      OthersGetNothing(Happen(d, run[0], Marusia), run[1..], r);
    }
  }

  /** A request at a text worker is given exactly the answers that stand at the front of a batch between
      its own command and the next one, whosever they are. */
  lemma RequestGetsItsWindow(d: Desk, r: nat, window: seq<Happening>, rest: seq<Happening>)
    requires Valid(d) && !d.stuck && Enabled(d, Starts(r)) && d.got[r] == [] && NoStarts(window)
    requires rest == [] || rest[0].Starts?
    requires var d1 := Happen(d, Starts(r), Marusia);
             Allowed(d1, window, Marusia) && Allowed(After(d1, window, Marusia), rest, Marusia)
    ensures var d1 := Happen(d, Starts(r), Marusia);
            After(After(d1, window, Marusia), rest, Marusia).got[r] == FrontAnswers(window)
  {
    var d1 := Happen(d, Starts(r), Marusia);
    SlotOwnerGetsFronts(d1, window, r);
    var d2 := After(d1, window, Marusia);
    StartedStays(d1, window, r, Marusia);
    if rest != [] {
      OthersGetNothing(Happen(d2, rest[0], Marusia), rest[1..], r);
    }
  }

  lemma {:induction false} StartedStays(d: Desk, run: seq<Happening>, r: nat, kind: Kind)
    requires Valid(d) && Allowed(d, run, kind)
    ensures r in d.started ==> r in After(d, run, kind).started
    ensures r in d.answered ==> r in After(d, run, kind).answered
    decreases run
  {
    if run != [] {
      StartedStays(Happen(d, run[0], kind), run[1..], r, kind);
    }
  }

  /** Giving out documents adds to what was given, and only answers that are among them. */
  lemma {:induction false} GiveAllAdds(d: Desk, batch: seq<Item>, r: nat, kind: Kind)
    requires Valid(d) && r < |d.https|
    ensures var d' := GiveAll(d, batch, kind);
            && d.got[r] <= d'.got[r]
            && (forall x :: x in d'.got[r] ==> x in d.got[r] || x in RepliesIn(batch))
            && (d.slot != Some(r) ==> d'.got[r] == d.got[r] && d'.https[r] == d.https[r])
    decreases batch
  {
    if batch != [] {
      assert batch == [batch[0]] + batch[1..];
      assert batch[0].Reply? ==> batch[0].r in RepliesIn(batch);
      assert RepliesIn(batch[1..]) <= RepliesIn(batch);
      GiveAllAdds(Give(d, batch[0], kind), batch[1..], r, kind);
    }
  }

  /** The same for whatever happens. */
  lemma HappenAdds(d: Desk, h: Happening, r: nat, kind: Kind)
    requires Valid(d) && Enabled(d, h) && r < |d.https|
    ensures var d' := Happen(d, h, kind);
            && d.got[r] <= d'.got[r]
            && (forall x :: x in d'.got[r] ==> x in d.got[r] || (h.Receives? && x in RepliesIn(h.batch)))
            && (h.Receives? && d.slot != Some(r) ==> d'.got[r] == d.got[r] && d'.https[r] == d.https[r])
  {
    if h.Receives? {
      assert h.batch[0] in h.batch;
      GiveAllAdds(d.(answered := d.answered + RepliesIn(h.batch)), h.batch, r, kind);
    }
  }

  /** A request whose own answer has come and gone, or can no longer reach it, never gets it. */
  lemma {:induction false} LostForGood(d: Desk, run: seq<Happening>, r: nat, kind: Kind)
    requires Valid(d) && Allowed(d, run, kind)
    requires r in d.started && (d.slot != Some(r) || r in d.answered) && r !in d.got[r]
    ensures r !in After(d, run, kind).got[r]
    decreases run
  {
    if run != [] {
      HappenAdds(d, run[0], r, kind);
      LostForGood(Happen(d, run[0], kind), run[1..], r, kind);
    }
  }

  lemma {:induction false} GotGrows(d: Desk, run: seq<Happening>, r: nat, kind: Kind)
    requires Valid(d) && Allowed(d, run, kind) && r < |d.https|
    ensures d.got[r] <= After(d, run, kind).got[r]
    decreases run
  {
    if run != [] {
      HappenAdds(d, run[0], r, kind);
      GotGrows(Happen(d, run[0], kind), run[1..], r, kind);
    }
  }

  lemma {:induction false} AnotherStartTakesTheSlot(d: Desk, run: seq<Happening>, r: nat, kind: Kind)
    requires Valid(d) && Allowed(d, run, kind) && r in d.started
    requires d.slot != Some(r) || !NoStarts(run)
    ensures After(d, run, kind).slot != Some(r)
    decreases run
  {
    if run != [] {
      assert run == [run[0]] + run[1..];
      AnotherStartTakesTheSlot(Happen(d, run[0], kind), run[1..], r, kind);
    }
  }

  lemma {:induction false} UnansweredHasNotOwn(d: Desk, run: seq<Happening>, r: nat, kind: Kind)
    requires Valid(d) && Allowed(d, run, kind) && r < |d.https| && r !in d.got[r]
    requires r !in After(d, run, kind).answered
    ensures r !in After(d, run, kind).got[r]
    decreases run
  {
    if run != [] {
      StartedStays(Happen(d, run[0], kind), run[1..], r, kind);
      HappenAdds(d, run[0], r, kind);
      UnansweredHasNotOwn(Happen(d, run[0], kind), run[1..], r, kind);
    }
  }

  /** At a text worker a request's own answer reaches it iff no other request starts between its command
      and its answer, and the answer stands at the front of its batch. It need not be the first one to
      reach it: see OverlapSwapsAnswers, request 1. */
  lemma OwnAnswerArrivesIff(d: Desk, r: nat, between: seq<Happening>, batch: seq<Item>, i: nat, rest: seq<Happening>)
    requires Valid(d) && !d.stuck && Enabled(d, Starts(r)) && d.got[r] == []
    requires i < |batch| && batch[i].Reply? && batch[i].r == r
    requires var d1 := Happen(d, Starts(r), Marusia);
             && Allowed(d1, between, Marusia)
             && var d2 := After(d1, between, Marusia);
                Enabled(d2, Receives(batch)) && Allowed(Happen(d2, Receives(batch), Marusia), rest, Marusia)
    ensures var d1 := Happen(d, Starts(r), Marusia);
            var d2 := After(d1, between, Marusia);
            r in After(Happen(d2, Receives(batch), Marusia), rest, Marusia).got[r] <==> NoStarts(between) && i == 0
  {
    var d1 := Happen(d, Starts(r), Marusia);
    var d2 := After(d1, between, Marusia);
    var d3 := Happen(d2, Receives(batch), Marusia);
    assert batch[i] in batch && r in RepliesIn(batch) && r in d3.answered;
    UnansweredHasNotOwn(d1, between, r, Marusia);
    StartedStays(d1, between, r, Marusia);
    if NoStarts(between) && i == 0 {
      SlotOwnerGetsFronts(d1, between, r);
      var n := |d2.got[r]|;
      assert d3.got[r] == d2.got[r] + [r] && d3.got[r][n] == r;
      GotGrows(d3, rest, r, Marusia);
      assert After(d3, rest, Marusia).got[r][n] == r;
    } else {
      if !NoStarts(between) {
        AnotherStartTakesTheSlot(d1, between, r, Marusia);
      }
      LostForGood(d3, rest, r, Marusia);
    }
  }

  // ------------------------------------------------------------------ all requests

  /** No command starts while another one is unanswered. */
  predicate NoOverlap(d: Desk, run: seq<Happening>, kind: Kind)
    requires Valid(d) && Allowed(d, run, kind)
    decreases run
  {
    run == [] || ((run[0].Starts? ==> d.started == d.answered) && NoOverlap(Happen(d, run[0], kind), run[1..], kind))
  }

  /** No answer stands behind another document of its batch. */
  predicate InFront(h: Happening) {
    h.Receives? ==> forall i :: 1 <= i < |h.batch| ==> h.batch[i].PingAnswer?
  }

  predicate AnswersInFront(run: seq<Happening>) {
    forall k :: 0 <= k < |run| ==> InFront(run[k])
  }

  predicate HasOwn(d: Desk, r: nat)
    requires Valid(d)
  {
    r < |d.got| && d.got[r] == [r]
  }

  /** Answered requests have got their own answer and no other; at most one is waiting, and it holds
      the slot. Those not answered yet are as routing left them. */
  ghost predicate Orderly(d: Desk, asked: seq<Http>) {
    && Valid(d) && !d.stuck && |asked| == |d.https|
    && (forall r :: r in d.answered ==> HasOwn(d, r))
    && (forall r :: r in d.started && r !in d.answered ==> d.slot == Some(r))
    && (forall r :: 0 <= r < |d.https| && r !in d.answered ==> d.https[r] == asked[r] && d.got[r] == [])
  }

  lemma {:induction false} PingsChangeNothing(d: Desk, batch: seq<Item>, kind: Kind)
    requires Valid(d) && forall i :: 0 <= i < |batch| ==> batch[i].PingAnswer?
    ensures GiveAll(d, batch, kind) == d
    decreases batch
  {
    if batch != [] {
      PingsChangeNothing(d, batch[1..], kind);
    }
  }

  /** A batch without an answer, or with one answer and otherwise ping answers, is that answer alone. */
  lemma {:induction false} OneAnswerAmongPings(d: Desk, batch: seq<Item>, i: nat, kind: Kind)
    requires Valid(d) && i < |batch| && forall j :: 0 <= j < |batch| && j != i ==> batch[j].PingAnswer?
    ensures GiveAll(d, batch, kind) == Give(d, batch[i], kind)
    decreases batch
  {
    if i == 0 {
      PingsChangeNothing(Give(d, batch[0], kind), batch[1..], kind);
    } else {
      OneAnswerAmongPings(d, batch[1..], i - 1, kind);
    }
  }

  /** In an orderly state a batch holds at most the one answer that is waited for; a SessionMQTT finds it
      wherever it stands, a SessionMarusia when it stands in front. */
  lemma BatchIsOneAnswer(d: Desk, batch: seq<Item>, i: nat, asked: seq<Http>, kind: Kind)
    requires Orderly(d, asked) && Enabled(d, Receives(batch)) && i < |batch| && batch[i].Reply?
    requires kind.Marusia? ==> InFront(Receives(batch))
    ensures RepliesIn(batch) == {batch[i].r} && d.slot == Some(batch[i].r)
    ensures Happen(d, Receives(batch), kind) == Give(d.(answered := d.answered + {batch[i].r}), batch[i], kind)
  {
    var r := batch[i].r;
    assert batch[i] in batch && r in RepliesIn(batch);
    forall j | 0 <= j < |batch| && batch[j].Reply? ensures batch[j].r == r {
      assert batch[j] in batch && batch[j].r in RepliesIn(batch);
    }
    assert RepliesIn(batch) == {r};
    assert forall j :: 0 <= j < |batch| && j != i ==> batch[j].PingAnswer?;
    if kind.Mqtt? {
      OneAnswerAmongPings(d.(answered := d.answered + {r}), batch, i, kind);
    }
  }

  lemma PingBatch(d: Desk, batch: seq<Item>, kind: Kind)
    requires Valid(d) && Enabled(d, Receives(batch)) && forall i :: 0 <= i < |batch| ==> batch[i].PingAnswer?
    ensures Happen(d, Receives(batch), kind) == d
  {
    assert RepliesIn(batch) == {} && d.answered + {} == d.answered;
    PingsChangeNothing(d, batch, kind);
  }

  lemma StepIsOrderly(d: Desk, h: Happening, asked: seq<Http>, kind: Kind)
    requires Orderly(d, asked) && Enabled(d, h) && forall r :: 0 <= r < |asked| ==> asked[r].body.Some?
    requires h.Starts? ==> d.started == d.answered
    requires kind.Marusia? ==> InFront(h)
    ensures Orderly(Happen(d, h, kind), asked)
    ensures forall r :: r in d.answered ==> Happen(d, h, kind).https[r] == d.https[r]
    ensures h.Receives? ==> forall r: nat, e :: Reply(r, e) in h.batch ==>
              r < |asked| && r !in d.answered && Happen(d, h, kind).https[r] == Step(asked[r], e)
  {
    if h.Receives? {
      if i: nat :| i < |h.batch| && h.batch[i].Reply? {
        BatchIsOneAnswer(d, h.batch, i, asked, kind);
        forall r: nat, e | Reply(r, e) in h.batch ensures Reply(r, e) == h.batch[i] {
          assert r in RepliesIn(h.batch);
        }
      } else {
        PingBatch(d, h.batch, kind);
      }
    }
  }

  ghost predicate IsIn(run: seq<Happening>, r: nat, e: Event) {
    exists k :: 0 <= k < |run| && run[k].Receives? && Reply(r, e) in run[k].batch
  }

  lemma {:induction false} OrderlyRun(d: Desk, run: seq<Happening>, asked: seq<Http>, kind: Kind)
    requires Orderly(d, asked) && Allowed(d, run, kind) && NoOverlap(d, run, kind)
    requires kind.Marusia? ==> AnswersInFront(run)
    requires forall r :: 0 <= r < |asked| ==> asked[r].body.Some?
    ensures Orderly(After(d, run, kind), asked)
    ensures forall r :: r in d.answered ==> After(d, run, kind).https[r] == d.https[r]
    ensures forall r: nat, e :: IsIn(run, r, e) ==> r < |asked| && After(d, run, kind).https[r] == Step(asked[r], e)
    decreases run
  {
    if run != [] {
      var d1 := Happen(d, run[0], kind);
      assert run == [run[0]] + run[1..];
      StepIsOrderly(d, run[0], asked, kind);
      OrderlyRun(d1, run[1..], asked, kind);
      forall r: nat, e | IsIn(run, r, e)
        ensures r < |asked| && After(d, run, kind).https[r] == Step(asked[r], e)
      {
        if run[0].Receives? && Reply(r, e) in run[0].batch {
          assert r in RepliesIn(run[0].batch) && r in d1.answered;
        } else {
          assert IsIn(run[1..], r, e);
        }
      }
    }
  }

  /** Answers that have not come yet are not among those given. */
  ghost predicate OnlyAnswered(d: Desk) {
    Valid(d) && forall r, x :: 0 <= r < |d.got| && x in d.got[r] ==> x in d.answered
  }

  lemma HappenOnlyAnswered(d: Desk, h: Happening, kind: Kind)
    requires OnlyAnswered(d) && Enabled(d, h)
    ensures OnlyAnswered(Happen(d, h, kind))
  {
    forall r, x | 0 <= r < |d.got| && x in Happen(d, h, kind).got[r] ensures x in Happen(d, h, kind).answered {
      HappenAdds(d, h, r, kind);
    }
  }

  lemma {:induction false} OverlapLosesOne(d: Desk, run: seq<Happening>, kind: Kind) returns (r: nat)
    requires OnlyAnswered(d) && Allowed(d, run, kind) && !NoOverlap(d, run, kind)
    ensures r in After(d, run, kind).started && !HasOwn(After(d, run, kind), r)
    decreases run
  {
    var d1 := Happen(d, run[0], kind);
    if run[0].Starts? && d.started != d.answered {
      r :| r in d.started && r !in d.answered;
      LostForGood(d1, run[1..], r, kind);
      StartedStays(d1, run[1..], r, kind);
    } else {
      HappenOnlyAnswered(d, run[0], kind);
      r := OverlapLosesOne(d1, run[1..], kind);
    }
  }

  lemma {:induction false} AnswerBehindIsLost(d: Desk, run: seq<Happening>) returns (r: nat)
    requires OnlyAnswered(d) && Allowed(d, run, Marusia) && !AnswersInFront(run)
    ensures r in After(d, run, Marusia).started && !HasOwn(After(d, run, Marusia), r)
    decreases run
  {
    var d1 := Happen(d, run[0], Marusia);
    if InFront(run[0]) {
      HappenOnlyAnswered(d, run[0], Marusia);
      assert run == [run[0]] + run[1..];
      r := AnswerBehindIsLost(d1, run[1..]);
    } else {
      var batch := run[0].batch;
      var i :| 1 <= i < |batch| && !batch[i].PingAnswer?;
      r := batch[i].r;
      assert batch[i] in batch && r in RepliesIn(batch);
      assert r !in d.got[r];
      assert batch[0].Reply? ==> batch[0].r != r;
      LostForGood(d1, run[1..], r, Marusia);
      StartedStays(d1, run[1..], r, Marusia);
    }
  }

  /** All requests whose commands go to one worker session get their own answer, each exactly once and
      nobody else's, iff no command starts while another is unanswered and, at a SessionMarusia, no
      answer stands behind another document of its batch. */
  lemma OwnAnswersIff(asked: seq<Http>, run: seq<Happening>, kind: Kind)
    requires forall r :: 0 <= r < |asked| ==> asked[r].body.Some?
    requires Allowed(Open(asked), run, kind)
    requires After(Open(asked), run, kind).started == After(Open(asked), run, kind).answered
    ensures (forall r :: r in After(Open(asked), run, kind).started ==> HasOwn(After(Open(asked), run, kind), r))
       <==> NoOverlap(Open(asked), run, kind) && (kind.Marusia? ==> AnswersInFront(run))
  {
    if !NoOverlap(Open(asked), run, kind) {
      var r := OverlapLosesOne(Open(asked), run, kind);
    } else if kind.Marusia? && !AnswersInFront(run) {
      var r := AnswerBehindIsLost(Open(asked), run);
    } else {
      OrderlyRun(Open(asked), run, asked, kind);
    }
  }

  /** Then the session behaves as if each request had a worker of its own. */
  lemma NoOverlapSeparates(asked: seq<Http>, run: seq<Happening>, kind: Kind, r: nat, e: Event)
    requires forall i :: 0 <= i < |asked| ==> asked[i].body.Some?
    requires Allowed(Open(asked), run, kind) && NoOverlap(Open(asked), run, kind)
    requires kind.Marusia? ==> AnswersInFront(run)
    requires IsIn(run, r, e)
    ensures r < |asked| && After(Open(asked), run, kind).https[r] == Step(asked[r], e)
    ensures !After(Open(asked), run, kind).stuck
  {
    OrderlyRun(Open(asked), run, asked, kind);
  }

  /** A request goes first to a text worker and then, when its answer is a move, to an MQTT worker. If
      commands overlap at neither session and the text worker's answers stand in front, it gets exactly
      one response, with its own ids: what its own text answer says, or what its own move came to. */
  lemma TwoDesksAnswerOnce(asked: seq<Http>, texts: seq<Happening>, r: nat, answer: TextAnswer, mqtt: seq<Worker>,
                           moving: seq<Http>, moves: seq<Happening>, m: nat, done: MqttAnswer)
    requires forall i :: 0 <= i < |asked| ==> asked[i].body.Some? && asked[i].responses == []
    requires Allowed(Open(asked), texts, Marusia) && NoOverlap(Open(asked), texts, Marusia) && AnswersInFront(texts)
    requires r < |asked| && IsIn(texts, r, FromText(answer, mqtt))
    requires forall i :: 0 <= i < |moving| ==> moving[i].body.Some?
    requires Allowed(Open(moving), moves, Mqtt) && NoOverlap(Open(moving), moves, Mqtt)
    requires AsksForMove(asked[r], FromText(answer, mqtt)) ==>
               && m < |moving| && moving[m] == After(Open(asked), texts, Marusia).https[r]
               && IsIn(moves, m, FromMqtt(done))
    ensures var e := FromText(answer, mqtt);
            var h := After(Open(asked), texts, Marusia).https[r];
            var final := if AsksForMove(asked[r], e) then After(Open(moving), moves, Mqtt).https[m] else h;
            && (AsksForMove(asked[r], e) ==>
                  var command := MoveCommand(asked[r].pos.mqttWorker, answer.station, answer.block, answer.floor.value);
                  h.moveCommands == asked[r].moveCommands + [command])
            && (AsksForMove(asked[r], e) || Closes(asked[r], e) ==>
                  && |final.responses| == 1 && Echoes(final.responses[0], asked[r].body.value)
                  && final.responses[0].content == ContentOf(if AsksForMove(asked[r], e) then FromMqtt(done) else e))
  {
    NoOverlapSeparates(asked, texts, Marusia, r, FromText(answer, mqtt));
    if AsksForMove(asked[r], FromText(answer, mqtt)) {
      NoOverlapSeparates(moving, moves, Mqtt, m, FromMqtt(done));
    }
  }
}
