// The approval poller against its update server: which updates may be forgotten, what is delivered
// again after a held update or a restart, and that nothing is approved twice.
module Poller {
  import opened Wrappers
  import opened Text
  import opened Domain
  import opened Records
  import opened Integrity
  import opened Store
  import Services
  import Eligibility
  import Transactions
  import Timestamps

  /* ---------- Updates ---------- */

  // Identifiers are absent where the message does not carry them.
  datatype Callback = Callback(messageFrom: Option<int>, sender: Option<int>, chat: Option<int>, data: string)

  datatype Update = Update(id: nat, callback: Option<Callback>)

  datatype Settings = Settings(userId: int, chatId: int, identity: string)

  const APPROVE_PREFIX := "approve:"

  function CallbackDataFor(id: string): Option<string> {
    if HexId(id) then Some(APPROVE_PREFIX + id) else None
  }

  function ParseCallbackData(data: string): Option<string> {
    var n := |APPROVE_PREFIX|;
    if |data| >= n && data[..n] == APPROVE_PREFIX && HexId(data[n..]) then Some(data[n..]) else None
  }

  // The two are inverse to each other, on exactly the well-formed payloads, and every payload is
  // within the transport's 64 characters.
  lemma {:induction false} CallbackRoundTrip(id: string, data: string)
    ensures ParseCallbackData(data) == Some(id) <==> CallbackDataFor(id) == Some(data)
    ensures CallbackDataFor(id).Some? ==> |CallbackDataFor(id).value| <= 64
  {
    var n := |APPROVE_PREFIX|;
    if ParseCallbackData(data) == Some(id) {
      assert data == data[..n] + data[n..];
    }
    if CallbackDataFor(id) == Some(data) {
      assert data[..n] == APPROVE_PREFIX && data[n..] == id;
    }
  }

  // The proposal an update approves; None is a safe no-op.
  function Classify(u: Update, botId: Option<int>, c: Settings): Option<string> {
    if u.callback.None? then None
    else if u.callback.value.messageFrom != botId then None
    else if u.callback.value.sender != Some(c.userId) then None
    else if u.callback.value.chat != Some(c.chatId) then None
    else ParseCallbackData(u.callback.value.data)
  }

  // The update approves a proposal exactly when the configured operator, in the configured chat,
  // pressed the button of a message of this bot that carries that proposal's id.
  lemma {:induction false} ClassifyIff(u: Update, botId: Option<int>, c: Settings, id: string)
    ensures Classify(u, botId, c) == Some(id) <==>
      HexId(id) && u.callback == Some(Callback(botId, Some(c.userId), Some(c.chatId), "approve:" + id))
  {
    if u.callback.Some? {
      CallbackRoundTrip(id, u.callback.value.data);
    }
  }

  datatype Outcome = Approved | AlreadyApproved | Expired | Declined | Discarded | Held | Crashed

  predicate Terminal(o: Outcome) {
    o != Held && o != Crashed
  }

  // What one processing meets: whether storage works, the minted approval id, the clock.
  datatype Turn = Turn(storageOk: bool, approvalId: string, now: Timestamps.Utc)

  function OutcomeOf(r: Rejection): Outcome {
    match r
    case ApprovalAlreadyRecorded => AlreadyApproved
    case Expired => Outcome.Expired
    case OperatorMismatch => Crashed
    case _ => Declined
  }

  // `operator` is the identity the verifier is configured with.
  function Approve(db: Db, id: string, c: Settings, operator: string, t: Turn): (Db, Outcome) {
    if c.identity != operator then (db, Crashed)
    else if !t.storageOk then (db, Held)
    else
      var r := RecordApprovalById(db, id, t.approvalId, operator, t.now);
      if r.Ok? then (r.value, Approved) else (db, OutcomeOf(r.error))
  }

  function ProcessUpdate(db: Db, u: Update, botId: Option<int>, c: Settings, operator: string, t: Turn): (Db, Outcome) {
    var id := Classify(u, botId, c);
    if id.None? then (db, Discarded) else Approve(db, id.value, c, operator, t)
  }

  // What the operator is told, by the row that stands under the id.
  lemma {:induction false} ApproveOutcomes(db: Db, id: string, c: Settings, operator: string, t: Turn)
    requires DbInv(db) && c.identity == operator && t.storageOk
    ensures
      var outcome := Approve(db, id, c, operator, t).1;
      && (outcome == Approved <==> Eligibility.Approvable(db, id, t.now, true))
      && (outcome == AlreadyApproved <==> Eligibility.Approvable(db, id, t.now, false))
      && (outcome == Outcome.Expired <==>
            exists p :: p in db.proposals && p.id == id && p.state == Active && !Eligibility.Unexpired(p, t.now))
      && outcome in {Approved, AlreadyApproved, Outcome.Expired, Declined}
  {
    hide DbInv, RecordApprovalById, Eligibility.Approvable, Eligibility.Unexpired;
    Eligibility.ApproveByIdRejected(db, id, t.approvalId, operator, t.now);
  }

  /* ---------- The conversation ---------- */

  datatype Settlement = Settlement(update: Update, proposalId: Option<string>, outcome: Outcome)

  // `pending` is what the server still holds, `forgotten` what it dropped, `settled` every update
  // that reached a terminal outcome, in order, `top` bounds the ids given out so far, and `batch`
  // is what the poller has fetched and not yet handled.
  datatype Chat = Chat(db: Db, pending: seq<Update>, forgotten: seq<Update>, offset: Option<nat>,
          settled: seq<Settlement>, top: nat, batch: seq<Update>)

  datatype Poller = Poller(botId: Option<int>, settings: Settings, operator: string)

  function Kept(pending: seq<Update>, offset: Option<nat>): seq<Update> {
    if pending == [] then []
    else (if offset.Some? && pending[0].id < offset.value then [] else [pending[0]]) + Kept(pending[1..], offset)
  }

  function Dropped(pending: seq<Update>, offset: Option<nat>): seq<Update> {
    if pending == [] then []
    else (if offset.Some? && pending[0].id < offset.value then [pending[0]] else []) + Dropped(pending[1..], offset)
  }

  // The server forgets everything below the offset it is asked for.
  function Forget(c: Chat): Chat {
    c.(pending := Kept(c.pending, c.offset), forgotten := c.forgotten + Dropped(c.pending, c.offset))
  }

  function Delivered(c: Chat, count: nat): seq<Update> {
    var kept := Kept(c.pending, c.offset);
    kept[..if count < |kept| then count else |kept|]
  }

  function FetchUpdates(c: Chat, count: nat): Chat {
    Forget(c).(batch := Delivered(c, count))
  }

  // One update: behind a terminal outcome the offset advances; otherwise the rest of the batch is
  // left for redelivery.
  function HandleNext(c: Chat, p: Poller, t: Turn): (next: Chat)
    requires c.batch != []
    ensures |next.batch| < |c.batch|
  {
    var u := c.batch[0];
    var (db, outcome) := ProcessUpdate(c.db, u, p.botId, p.settings, p.operator, t);
    if !Terminal(outcome) then c.(db := db, batch := [])
    else
      c.(db := db, offset := Some(u.id + 1), batch := c.batch[1..],
         settled := c.settled + [Settlement(u, Classify(u, p.botId, p.settings), outcome)])
  }

  function HandleAll(c: Chat, p: Poller, turns: nat -> Turn, k: nat): Chat
    decreases |c.batch|
  {
    if c.batch == [] then c else HandleAll(HandleNext(c, p, turns(k)), p, turns, k + 1)
  }

  // One poll that nobody interrupts.
  function Poll(c: Chat, p: Poller, count: nat, turns: nat -> Turn): Chat {
    HandleAll(FetchUpdates(c, count), p, turns, 0)
  }

  datatype Step =
    | Arrive(update: Update)
    | Fetch(count: nat)
    | Handle(poller: Poller, turn: Turn)
    | LostPoll(drops: bool)          // the request or its answer is lost
    | Restart                        // at any point, also between two updates of a poll
    | Elsewhere(db: Db)              // other transactions on the shared database

  ghost predicate Enabled(c: Chat, s: Step) {
    match s
    case Arrive(u) => u.id >= c.top
    case Elsewhere(db) => DbInv(db) && Grows(c.db, db)
    case Handle(p, t) => c.batch != []
    case Fetch(count) => c.batch == []
    case LostPoll(drops) => c.batch == []
    case Restart => true
  }

  ghost function Apply(c: Chat, s: Step): Chat
    requires Enabled(c, s)
  {
    match s
    case Arrive(u) => c.(pending := c.pending + [u], top := u.id + 1)
    case Fetch(count) => FetchUpdates(c, count)
    case Handle(p, t) => HandleNext(c, p, t)
    case LostPoll(drops) => if drops then Forget(c) else c
    case Restart => c.(offset := None, batch := [])
    case Elsewhere(db) => c.(db := db)
  }

  /* ---------- The invariant ---------- */

  ghost predicate Ascending(us: seq<Update>) {
    forall i, j :: 0 <= i < j < |us| ==> us[i].id < us[j].id
  }

  ghost predicate IsSettled(settled: seq<Settlement>, u: Update) {
    exists k :: 0 <= k < |settled| && settled[k].update == u && Terminal(settled[k].outcome)
  }

  // Everything the server forgot, and everything it would forget at the next poll, is settled.
  ghost predicate NothingLost(c: Chat) {
    && (forall i :: 0 <= i < |c.forgotten| ==> IsSettled(c.settled, c.forgotten[i]))
    && (forall i :: 0 <= i < |c.pending| && c.offset.Some? && c.pending[i].id < c.offset.value ==>
        IsSettled(c.settled, c.pending[i]))
  }

  ghost predicate HasApproval(db: Db, id: string) {
    exists i :: 0 <= i < |db.approvals| && db.approvals[i].proposalId == id
  }

  ghost predicate ApprovedOnce(db: Db, settled: seq<Settlement>) {
    && (forall k :: 0 <= k < |settled| && settled[k].outcome == Approved ==>
          settled[k].proposalId.Some? && HasApproval(db, settled[k].proposalId.value))
    && (forall j, k :: 0 <= j < k < |settled| && settled[j].outcome == Approved && settled[k].outcome == Approved ==>
          settled[j].proposalId != settled[k].proposalId)
  }

  ghost predicate Inv(c: Chat) {
    && DbInv(c.db)
    && Ascending(c.pending) && (forall i :: 0 <= i < |c.pending| ==> c.pending[i].id < c.top)
    && (c.offset.Some? ==> c.offset.value <= c.top)
    && NothingLost(c)
    && ApprovedOnce(c.db, c.settled)
    && c.batch <= Kept(c.pending, c.offset)
  }

  function Initial(db: Db): Chat {
    Chat(db, [], [], None, [], 0, [])
  }

  lemma {:induction false} KeptAre(us: seq<Update>, offset: Option<nat>)
    ensures forall u :: u in Kept(us, offset) <==> u in us && !(offset.Some? && u.id < offset.value)
    ensures forall u :: u in Dropped(us, offset) <==> u in us && offset.Some? && u.id < offset.value
  {
    if us == [] {
    } else {
      KeptAre(us[1..], offset);
      assert us == [us[0]] + us[1..];
    }
  }

  lemma {:induction false} KeptAscending(us: seq<Update>, offset: Option<nat>)
    requires Ascending(us)
    ensures Ascending(Kept(us, offset))
  {
    if us == [] {
    } else {
      KeptAscending(us[1..], offset);
      KeptAre(us[1..], offset);
      var rest := Kept(us[1..], offset);
      hide Kept, Dropped;
      forall u | u in rest ensures us[0].id < u.id {
        var i :| 0 <= i < |us[1..]| && us[1..][i] == u;
        assert us[i + 1] == u;
      }
      AscendingCons(us[0], rest);
    }
  }

  lemma {:induction false} AscendingCons(u: Update, us: seq<Update>)
    requires Ascending(us) && forall v :: v in us ==> u.id < v.id
    ensures Ascending([u] + us)
  {
    var all := [u] + us;
    assert forall i :: 0 < i < |all| ==> all[i] == us[i - 1] && all[i] in us;
  }

  lemma {:induction false} KeptWhole(us: seq<Update>, offset: Option<nat>)
    requires offset.Some? ==> forall i :: 0 <= i < |us| ==> us[i].id >= offset.value
    ensures Kept(us, offset) == us
  {
    if us == [] {
    } else {
      KeptWhole(us[1..], offset);
    }
  }

  lemma {:induction false} KeptTwice(us: seq<Update>, offset: Option<nat>)
    ensures Kept(Kept(us, offset), offset) == Kept(us, offset)
  {
    KeptAre(us, offset);
    var kept := Kept(us, offset);
    assert forall i :: 0 <= i < |kept| ==> kept[i] in kept;
    KeptWhole(kept, offset);
  }

  // A newcomer queues up behind what is kept.
  lemma {:induction false} KeptArrives(us: seq<Update>, u: Update, offset: Option<nat>)
    requires offset.Some? ==> u.id >= offset.value
    ensures Kept(us + [u], offset) == Kept(us, offset) + [u]
  {
    if us == [] {
    } else {
      KeptArrives(us[1..], u, offset);
      assert (us + [u])[1..] == us[1..] + [u];
    }
  }

  // An offset right behind the first update kept leaves exactly the others.
  lemma {:induction false} KeptBehind(us: seq<Update>, offset: Option<nat>)
    requires Ascending(us) && Kept(us, offset) != []
    ensures Kept(us, Some(Kept(us, offset)[0].id + 1)) == Kept(us, offset)[1..]
  {
    var rest, first := us[1..], Kept(us, offset)[0];
    if offset.Some? && us[0].id < offset.value {
      KeptBehind(rest, offset);
      FirstIsLeast(rest, offset);
    } else {
      assert forall i :: 0 <= i < |rest| ==> rest[i] == us[i + 1];
      hide Dropped;
      KeptWhole(rest, offset);
      KeptWhole(rest, Some(first.id + 1));
    }
  }

  // What is not below the offset is not below the first update kept.
  lemma {:induction false} FirstIsLeast(us: seq<Update>, offset: Option<nat>)
    requires Ascending(us) && Kept(us, offset) != []
    ensures Kept(us, offset)[0] in us
    ensures offset.Some? ==> Kept(us, offset)[0].id >= offset.value
    ensures forall u :: u in us && u.id <= Kept(us, offset)[0].id ==>
              u == Kept(us, offset)[0] || (offset.Some? && u.id < offset.value)
  {
    KeptAre(us, offset);
    KeptAscending(us, offset);
    hide Kept, Dropped;
    var kept := Kept(us, offset);
    assert kept[0] in kept;
  }

  lemma {:induction false} ForgetKeeps(c: Chat)
    requires Inv(c)
    ensures Inv(Forget(c))
  {
    KeptAre(c.pending, c.offset);
    KeptAscending(c.pending, c.offset);
    KeptTwice(c.pending, c.offset);
    var next := Forget(c);
    forall i | 0 <= i < |next.forgotten| ensures IsSettled(next.settled, next.forgotten[i]) {
      if i >= |c.forgotten| {
        assert next.forgotten[i] in Dropped(c.pending, c.offset);
        assert next.forgotten[i] in c.pending;
      }
    }
    forall i | 0 <= i < |next.pending|
      ensures next.pending[i] in c.pending && !(c.offset.Some? && next.pending[i].id < c.offset.value) {
      assert next.pending[i] in Kept(c.pending, c.offset);
    }
    hide DbInv, ApprovedOnce;
  }

  /* ---------- One update ---------- */

  lemma {:induction false} HasApprovalStable(a: Db, b: Db, id: string)
    requires HasApproval(a, id) && Grows(a, b)
    ensures HasApproval(b, id)
  {
    var i :| 0 <= i < |a.approvals| && a.approvals[i].proposalId == id;
    assert ApprovalKept(a.approvals[i], b.approvals[i]);
    assert b.approvals[i].proposalId == id;
  }

  // A proposal with an approval on file is never approved again.
  lemma {:induction false} NoSecondApproval(db: Db, id: string, c: Settings, operator: string, t: Turn)
    requires DbInv(db) && HasApproval(db, id)
    ensures Approve(db, id, c, operator, t).1 != Approved && Approve(db, id, c, operator, t).0 == db
  {
    hide RecordApprovalById;
    RecordingRefused(db, id, t.approvalId, operator, t.now);
  }

  lemma {:induction false} RecordingRefused(db: Db, id: string, approvalId: string, operator: string,
          now: Timestamps.Utc)
    requires DbInv(db) && HasApproval(db, id)
    ensures RecordApprovalById(db, id, approvalId, operator, now).Err?
  {
    hide FetchById, DbInv, HasApproval, FetchBinding;
    if FetchById(db, id, now).Ok? {
      Transactions.FetchedRow(db, id, now);
      ApprovalOnFile(db, id, FindId(db.proposals, id));
    }
  }

  lemma {:induction false} ApprovalOnFile(db: Db, id: string, p: nat)
    requires DbInv(db) && HasApproval(db, id) && p < |db.proposals| && db.proposals[p].id == id
    ensures FindApproval(db.approvals, db.proposals[p].tokenDigest) < |db.approvals|
  {
    var a :| 0 <= a < |db.approvals| && db.approvals[a].proposalId == id;
    assert HasRow(db.proposals, db.approvals[a].tokenDigest);
    var i :| 0 <= i < |db.proposals| && db.proposals[i].tokenDigest == db.approvals[a].tokenDigest;
    assert ApprovalFits(db.approvals[a], db.proposals[i]);
    assert i == p;
  }

  lemma {:induction false} ApproveKeeps(db: Db, id: string, c: Settings, operator: string, t: Turn)
    requires DbInv(db)
    ensures
      var (next, outcome) := Approve(db, id, c, operator, t);
      DbInv(next) && Grows(db, next) && (outcome == Approved ==> HasApproval(next, id))
  {
    GrowsReflexive(db);
    hide DbInv, Grows;
    if RecordApprovalById(db, id, t.approvalId, operator, t.now).Ok? {
      Transactions.RecordByIdKeeps(db, id, t.approvalId, operator, t.now);
      Transactions.FetchedRow(db, id, t.now);
      hide FetchById;
      var next := RecordApprovalById(db, id, t.approvalId, operator, t.now).value;
      assert next.approvals[|db.approvals|].proposalId == id;
    }
  }

  lemma {:induction false} ProcessKeeps(db: Db, settled: seq<Settlement>, u: Update, p: Poller, t: Turn)
    requires DbInv(db) && ApprovedOnce(db, settled)
    ensures
      var (next, outcome) := ProcessUpdate(db, u, p.botId, p.settings, p.operator, t);
      && DbInv(next) && Grows(db, next) && ApprovedOnce(next, settled)
      && ApprovedOnce(next, settled + [Settlement(u, Classify(u, p.botId, p.settings), outcome)])
  {
    var id := Classify(u, p.botId, p.settings);
    var (next, outcome) := ProcessUpdate(db, u, p.botId, p.settings, p.operator, t);
    GrowsReflexive(db);
    if id.Some? {
      ApproveKeeps(db, id.value, p.settings, p.operator, t);
      if HasApproval(db, id.value) {
        NoSecondApproval(db, id.value, p.settings, p.operator, t);
      }
    }
    hide DbInv, Approve, Classify;
    ApprovedStable(db, next, settled);
    hide Grows, HasApproval;
  }

  lemma {:induction false} ApprovedStable(a: Db, b: Db, settled: seq<Settlement>)
    requires ApprovedOnce(a, settled) && Grows(a, b)
    ensures ApprovedOnce(b, settled)
  {
    forall k | 0 <= k < |settled| && settled[k].outcome == Approved
      ensures HasApproval(b, settled[k].proposalId.value) {
      HasApprovalStable(a, b, settled[k].proposalId.value);
    }
  }

  /* ---------- One poll ---------- */

  lemma {:induction false} SettledMore(settled: seq<Settlement>, s: Settlement, u: Update)
    ensures IsSettled(settled, u) ==> IsSettled(settled + [s], u)
    ensures Terminal(s.outcome) ==> IsSettled(settled + [s], s.update)
  {
    if k :| 0 <= k < |settled| && settled[k].update == u && Terminal(settled[k].outcome) {
      assert (settled + [s])[k].update == u;
    }
    assert (settled + [s])[|settled|] == s;
  }

  lemma {:induction false} SettleKeeps(c: Chat, db: Db, s: Settlement)
    requires Inv(c) && c.batch != [] && s.update == c.batch[0] && Terminal(s.outcome)
    requires DbInv(db) && ApprovedOnce(db, c.settled + [s])
    ensures Inv(c.(db := db, offset := Some(s.update.id + 1), batch := c.batch[1..], settled := c.settled + [s]))
  {
    var next := c.(db := db, offset := Some(s.update.id + 1), batch := c.batch[1..], settled := c.settled + [s]);
    assert s.update == Kept(c.pending, c.offset)[0];
    KeptBehind(c.pending, c.offset);
    FirstIsLeast(c.pending, c.offset);
    hide Kept, Dropped;
    forall u | IsSettled(c.settled, u) ensures IsSettled(next.settled, u) {
      SettledMore(c.settled, s, u);
    }
    SettledMore(c.settled, s, s.update);
    hide DbInv, ApprovedOnce, IsSettled;
  }

  lemma {:induction false} HandleKeeps(c: Chat, p: Poller, t: Turn)
    requires Inv(c) && c.batch != []
    ensures
      var next := HandleNext(c, p, t);
      Inv(next) && Grows(c.db, next.db) && next.pending == c.pending && c.settled <= next.settled
  {
    var u := c.batch[0];
    assert DbInv(c.db) && ApprovedOnce(c.db, c.settled);
    ProcessKeeps(c.db, c.settled, u, p, t);
    var (db, outcome) := ProcessUpdate(c.db, u, p.botId, p.settings, p.operator, t);
    var s := Settlement(u, Classify(u, p.botId, p.settings), outcome);
    hide DbInv, ApprovedOnce, Grows, ProcessUpdate, Classify, NothingLost, Kept;
    if Terminal(outcome) {
      SettleKeeps(c, db, s);
    } else {
      DbKeeps(c, db);
    }
  }

  lemma {:induction false} DbKeeps(c: Chat, db: Db)
    requires Inv(c) && DbInv(db) && ApprovedOnce(db, c.settled)
    ensures Inv(c.(db := db)) && Inv(c.(db := db, batch := []))
  {
    hide DbInv, ApprovedOnce, IsSettled;
  }

  lemma {:induction false} FetchKeeps(c: Chat, count: nat)
    requires Inv(c)
    ensures Inv(FetchUpdates(c, count)) && FetchUpdates(c, count).pending == Kept(c.pending, c.offset)
  {
    ForgetKeeps(c);
    KeptTwice(c.pending, c.offset);
    hide DbInv, ApprovedOnce, NothingLost;
  }

  // A poll that nobody interrupts is a run of these steps: it fetches, then handles one update
  // after the other, and keeps what every step keeps.
  lemma {:induction false} HandleAllKeeps(c: Chat, p: Poller, turns: nat -> Turn, k: nat)
    requires Inv(c)
    ensures
      var next := HandleAll(c, p, turns, k);
      Inv(next) && next.batch == [] && Grows(c.db, next.db) && next.pending == c.pending && c.settled <= next.settled
    decreases |c.batch|
  {
    hide Inv, Grows, HandleNext;
    GrowsReflexive(c.db);
    if c.batch == [] {
    } else {
      HandleKeeps(c, p, turns(k));
      var next := HandleNext(c, p, turns(k));
      HandleAllKeeps(next, p, turns, k + 1);
      GrowsTransitive(c.db, next.db, HandleAll(next, p, turns, k + 1).db);
    }
  }

  /* ---------- Every run ---------- */

  lemma {:induction false} StepKeepsInv(c: Chat, s: Step)
    requires Inv(c) && Enabled(c, s)
    ensures Inv(Apply(c, s)) && c.settled <= Apply(c, s).settled
  {
    match s {
      case Arrive(u) =>
        KeptArrives(c.pending, u, c.offset);
        hide DbInv, ApprovedOnce, IsSettled;
      case Fetch(count) => FetchKeeps(c, count);
      case Handle(p, t) => HandleKeeps(c, p, t);
      case LostPoll(drops) => ForgetKeeps(c);
      case Restart =>
        hide DbInv, ApprovedOnce, IsSettled;
      case Elsewhere(db) =>
        ApprovedStable(c.db, db, c.settled);
        DbKeeps(c, db);
    }
  }

  ghost predicate StepsTo(c: Chat, next: Chat) {
    exists s :: Enabled(c, s) && next == Apply(c, s)
  }

  ghost predicate StepAt(tr: seq<Chat>, i: nat)
    requires i + 1 < |tr|
  {
    StepsTo(tr[i], tr[i + 1])
  }

  ghost predicate IsRun(tr: seq<Chat>) {
    && tr != [] && tr[0] == Initial(tr[0].db) && DbInv(tr[0].db)
    && forall i: nat :: i + 1 < |tr| ==> StepAt(tr, i)
  }

  lemma {:induction false} RunStep(tr: seq<Chat>, k: nat) returns (s: Step)
    requires IsRun(tr) && k + 1 < |tr|
    ensures Enabled(tr[k], s) && tr[k + 1] == Apply(tr[k], s)
  {
    assert StepAt(tr, k);
    s :| Enabled(tr[k], s) && tr[k + 1] == Apply(tr[k], s);
  }

  lemma {:induction false} RunInv(tr: seq<Chat>, k: nat)
    requires IsRun(tr) && k < |tr|
    ensures Inv(tr[k])
    decreases k
  {
    if k == 0 {
      hide HasApproval;
    } else {
      hide IsRun, Inv, Enabled, Apply;
      RunInv(tr, k - 1);
      var s := RunStep(tr, k - 1);
      StepKeepsInv(tr[k - 1], s);
    }
  }

  // Over any sequence of polls, held updates, lost answers and restarts, whatever the server has
  // forgotten reached a terminal outcome, and no proposal was approved twice.
  lemma {:induction false} ForgottenAreSettled(tr: seq<Chat>, k: nat)
    requires IsRun(tr) && k < |tr|
    ensures forall i :: 0 <= i < |tr[k].forgotten| ==> IsSettled(tr[k].settled, tr[k].forgotten[i])
    ensures ApprovedOnce(tr[k].db, tr[k].settled)
  {
    RunInv(tr, k);
    hide IsRun, DbInv, IsSettled, ApprovedOnce;
  }

  lemma {:induction false} UnsettledStays(c: Chat, s: Step, u: Update)
    requires Inv(c) && Enabled(c, s) && u in c.pending && !IsSettled(c.settled, u)
    ensures u in Apply(c, s).pending
  {
    KeptAre(c.pending, c.offset);
    var i :| 0 <= i < |c.pending| && c.pending[i] == u;
    hide DbInv, ApprovedOnce, IsSettled;
    if s.Handle? {
      hide ProcessUpdate;
    }
  }

  lemma {:induction false} SettledStays(a: seq<Settlement>, b: seq<Settlement>, u: Update)
    requires IsSettled(a, u) && a <= b
    ensures IsSettled(b, u)
  {
    var k :| 0 <= k < |a| && a[k].update == u && Terminal(a[k].outcome);
    assert b[k] == a[k];
  }

  lemma {:induction false} StepLosesNothing(c: Chat, s: Step, u: Update)
    requires Inv(c) && Enabled(c, s) && (IsSettled(c.settled, u) || u in c.pending)
    ensures IsSettled(Apply(c, s).settled, u) || u in Apply(c, s).pending
  {
    hide Inv, Enabled, Apply, IsSettled;
    StepKeepsInv(c, s);
    if IsSettled(c.settled, u) {
      SettledStays(c.settled, Apply(c, s).settled, u);
    } else {
      UnsettledStays(c, s, u);
    }
  }

  // No update is ever lost: from its arrival on it is settled or still with the server.
  lemma {:induction false} NoUpdateIsLost(tr: seq<Chat>, i: nat, k: nat, u: Update)
    requires IsRun(tr) && i <= k < |tr| && u in tr[i].pending
    ensures IsSettled(tr[k].settled, u) || u in tr[k].pending
    decreases k
  {
    hide IsRun, Inv, Enabled, Apply, IsSettled;
    if i < k {
      NoUpdateIsLost(tr, i, k - 1, u);
      RunInv(tr, k - 1);
      var s := RunStep(tr, k - 1);
      StepLosesNothing(tr[k - 1], s, u);
    }
  }

  // And as long as it is not settled it stays in line: there is a place from which a poll delivers
  // it exactly if it asks for more updates than stand before it.
  lemma {:induction false} UnsettledIsInLine(c: Chat, u: Update) returns (place: nat)
    requires Inv(c) && u in c.pending && !IsSettled(c.settled, u)
    ensures place < |Kept(c.pending, c.offset)| && Kept(c.pending, c.offset)[place] == u
    ensures forall count: nat :: u in Delivered(c, count) <==> place < count
  {
    KeptAre(c.pending, c.offset);
    KeptAscending(c.pending, c.offset);
    hide DbInv, ApprovedOnce, IsSettled;
    var kept := Kept(c.pending, c.offset);
    var i :| 0 <= i < |c.pending| && c.pending[i] == u;
    place :| 0 <= place < |kept| && kept[place] == u;
    hide Kept, Dropped;
    forall count: nat ensures u in Delivered(c, count) <==> place < count {
      var n := if count < |kept| then count else |kept|;
      assert Delivered(c, count) == kept[..n];
      assert place < n ==> kept[..n][place] == u;
    }
  }

  // A held update ends the poll, moves no offset past it and leaves the database as it was.
  lemma {:induction false} HeldStopsThePoll(c: Chat, p: Poller, t: Turn)
    requires c.batch != []
    requires !Terminal(ProcessUpdate(c.db, c.batch[0], p.botId, p.settings, p.operator, t).1)
    ensures HandleNext(c, p, t) == c.(batch := [])
  {
    var u := c.batch[0];
    var id := Classify(u, p.botId, p.settings);
    if id.Some? && RecordApprovalById(c.db, id.value, t.approvalId, p.operator, t.now).Err? {
      hide RecordApprovalById;
    }
  }

  // The update the poller has to handle next.
  ghost predicate FirstInLine(c: Chat, u: Update) {
    Kept(c.pending, c.offset) != [] && Kept(c.pending, c.offset)[0] == u
  }

  lemma {:induction false} HeldIsFirst(c: Chat, p: Poller, t: Turn)
    requires Inv(c) && c.batch != []
    requires !Terminal(ProcessUpdate(c.db, c.batch[0], p.botId, p.settings, p.operator, t).1)
    ensures FirstInLine(HandleNext(c, p, t), c.batch[0]) && HandleNext(c, p, t).batch == []
  {
    HeldStopsThePoll(c, p, t);
    hide HandleNext, DbInv, ApprovedOnce, NothingLost;
  }

  // Until the next poll it stays first, whatever arrives and whoever writes; and that poll delivers
  // it first, whatever it asks for.
  lemma {:induction false} FirstStays(c: Chat, s: Step, u: Update)
    requires Inv(c) && Enabled(c, s) && c.batch == [] && FirstInLine(c, u) && !s.Restart?
    ensures FirstInLine(Apply(c, s), u)
    ensures s.Fetch? && s.count > 0 ==> Apply(c, s).batch != [] && Apply(c, s).batch[0] == u
  {
    KeptTwice(c.pending, c.offset);
    if s.Arrive? {
      KeptArrives(c.pending, s.update, c.offset);
    }
    hide DbInv, ApprovedOnce, NothingLost, Grows;
  }

  /* ---------- The poller as an object ---------- */

  class UpdateServer {
    var pending: seq<Update>
    ghost var forgotten: seq<Update>

    // Asking from an offset confirms everything below it.
    method GetUpdates(offset: Option<nat>, count: nat) returns (updates: seq<Update>)
      modifies this
      ensures pending == Kept(old(pending), offset) && forgotten == old(forgotten) + Dropped(old(pending), offset)
      ensures updates == pending[..if count < |pending| then count else |pending|]
    {
      forgotten := forgotten + Dropped(pending, offset);
      pending := Kept(pending, offset);
      updates := pending[..if count < |pending| then count else |pending|];
    }
  }

  class ApprovalPoller {
    const server: UpdateServer
    const verifier: Services.ApprovalVerifier
    const settings: Settings
    var botId: Option<int>
    var offset: Option<nat>
    ghost var settled: seq<Settlement>

    // A restarted poller begins without an offset.
    constructor (server: UpdateServer, verifier: Services.ApprovalVerifier, settings: Settings)
      ensures this.server == server && this.verifier == verifier && this.settings == settings
      ensures offset.None? && botId.None? && settled == []
    {
      this.server, this.verifier, this.settings := server, verifier, settings;
      botId, offset, settled := None, None, [];
    }

    method BindBotIdentity(id: int)
      modifies this`botId
      ensures botId == Some(id)
    {
      botId := Some(id);
    }

    function Identity(): Poller
      reads this
    {
      Poller(botId, settings, verifier.operator)
    }

    // The conversation so far; `top` is the server's affair.
    ghost function Conversation(top: nat): Chat
      reads this, server, verifier.db
    {
      Chat(verifier.db.Contents(), server.pending, server.forgotten, offset, settled, top, [])
    }

    method ApproveProposal(id: string, t: Turn) returns (outcome: Outcome)
      requires verifier.db.Valid() && verifier.db.saved.None?
      modifies verifier.db
      ensures verifier.db.Valid() && verifier.db.saved.None?
      ensures (verifier.db.Contents(), outcome)
          == Approve(old(verifier.db.Contents()), id, settings, verifier.operator, t)
    {
      hide Unique, UniqueBindings, UniqueApprovals, RecordApprovalById;
      if settings.identity == verifier.operator && !t.storageOk {
        return Held;
      }
      var r := verifier.RecordByProposalId(id, settings.identity, t.approvalId, t.now);
      if settings.identity != verifier.operator {
        return Crashed;
      }
      outcome := if r.Ok? then Approved else OutcomeOf(r.error);
    }

    method Process(u: Update, t: Turn) returns (outcome: Outcome)
      requires verifier.db.Valid() && verifier.db.saved.None?
      modifies verifier.db
      ensures verifier.db.Valid() && verifier.db.saved.None?
      ensures (verifier.db.Contents(), outcome)
              == ProcessUpdate(old(verifier.db.Contents()), u, botId, settings, verifier.operator, t)
    {
      var id := Classify(u, botId, settings);
      if id.None? {
        return Discarded;
      }
      outcome := ApproveProposal(id.value, t);
    }

    // One poll: updates in order, the offset advanced behind each terminal outcome, the rest left
    // for redelivery as soon as one is held.
    method RunOnce(count: nat, turns: nat -> Turn, ghost top: nat) returns (crashed: bool)
      requires verifier.db.Valid() && verifier.db.saved.None?
      modifies this, server, verifier.db
      ensures verifier.db.Valid() && verifier.db.saved.None? && botId == old(botId)
      ensures Conversation(top) == Poll(old(Conversation(top)), old(Identity()), count, turns)
    {
      hide Unique, UniqueBindings, UniqueApprovals, ProcessUpdate, Classify, Kept, Dropped;
      ghost var start := Conversation(top);
      ghost var p := Identity();
      var updates := server.GetUpdates(offset, count);
      ghost var goal := HandleAll(Conversation(top).(batch := updates), p, turns, 0);
      assert Conversation(top).(batch := updates) == FetchUpdates(start, count);
      crashed := false;
      for k := 0 to |updates|
        invariant verifier.db.Valid() && verifier.db.saved.None? && Identity() == p
        invariant HandleAll(Conversation(top).(batch := updates[k..]), p, turns, k) == goal
      {
        ghost var before := Conversation(top).(batch := updates[k..]);
        var outcome := Process(updates[k], turns(k));
        if outcome == Crashed {
          return true;
        }
        if outcome == Held {
          return false;
        }
        offset := Some(updates[k].id + 1);
        settled := settled + [Settlement(updates[k], Classify(updates[k], botId, settings), outcome)];
      }
    }
  }
}
