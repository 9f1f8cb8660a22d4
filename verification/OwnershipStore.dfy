/**
 The ownership and rotation tables of the store, with its transactions as atomic steps on them. A table is the sequence
 of its rows in row-id order: an insert appends, a delete keeps the order of the rest.
 */
module OwnershipStore {
  import opened Basics
  import opened Sorting

  type Key = string
  type Address = string

  /** Primary key (key, payTo). */
  datatype Owner = Owner(key: Key, payTo: Address, boundAt: int, verifiedAt: Option<int>)

  /** Primary key (key, oldPayTo, newPayTo, nonce). */
  datatype MarkerId = MarkerId(key: Key, oldPayTo: Address, newPayTo: Address, nonce: string)
  datatype Marker = Marker(id: MarkerId, settledAt: int, expiresAt: int, consumedAt: Option<int>)

  datatype State = State(owners: seq<Owner>, markers: seq<Marker>)

  predicate HasOwnerRow(owners: seq<Owner>, key: Key, payTo: Address) {
    exists i :: 0 <= i < |owners| && owners[i].key == key && owners[i].payTo == payTo
  }

  predicate HasMarker(markers: seq<Marker>, id: MarkerId) {
    exists i :: 0 <= i < |markers| && markers[i].id == id
  }

  /** The rows that are not for `key`. */
  function Others(owners: seq<Owner>, key: Key): (r: seq<Owner>)
    ensures forall o :: o in r <==> o in owners && o.key != key
  {
    if owners == [] then []
    else
      var rest := Others(owners[1..], key);
      assert owners == [owners[0]] + owners[1..];
      if owners[0].key == key then rest else [owners[0]] + rest
  }

  /** The rows for `key`, in row-id order. */
  function RowsOf(owners: seq<Owner>, key: Key): (r: seq<Owner>)
    ensures forall o :: o in r <==> o in owners && o.key == key
  {
    if owners == [] then []
    else
      var last := owners[|owners| - 1];
      var rest := RowsOf(owners[..|owners| - 1], key);
      assert owners == owners[..|owners| - 1] + [last];
      if last.key == key then rest + [last] else rest
  }

  function ByBoundAt(): (Owner, Owner) -> bool {
    (a: Owner, b: Owner) => a.boundAt <= b.boundAt
  }

  lemma SortedByBoundAt()
    ensures TotalPreorder(ByBoundAt())
  {
  }

  /** A key's rows as every reader sees them: ORDER BY bound_at, rowid. */
  function OrderedRows(owners: seq<Owner>, key: Key): seq<Owner> {
    Sort(RowsOf(owners, key), ByBoundAt())
  }

  /** The row that decides who owns the key. */
  function FirstOwner(owners: seq<Owner>, key: Key): Option<Address> {
    var rows := OrderedRows(owners, key);
    if rows == [] then None else Some(rows[0].payTo)
  }

  /** False when the insert violates the primary key; the whole batch then rolls back. */
  function Bind(s: State, key: Key, payTo: Address, at: int): (State, bool) {
    if HasOwnerRow(s.owners, key, payTo) then (s, false)
    else (s.(owners := s.owners + [Owner(key, payTo, at, None)]), true)
  }

  function Marked(o: Owner, key: Key, payTo: Address, at: int): Owner {
    if o.key == key && o.payTo == payTo && o.verifiedAt.None? then o.(verifiedAt := Some(at)) else o
  }

  function MarkAll(owners: seq<Owner>, key: Key, payTo: Address, at: int): (r: seq<Owner>)
    ensures |r| == |owners| && forall i :: 0 <= i < |r| ==> r[i] == Marked(owners[i], key, payTo, at)
  {
    if owners == [] then [] else [Marked(owners[0], key, payTo, at)] + MarkAll(owners[1..], key, payTo, at)
  }

  function MarkVerified(s: State, key: Key, payTo: Address, at: int): State {
    s.(owners := MarkAll(s.owners, key, payTo, at))
  }

  function Displace(s: State, key: Key, newPayTo: Address, at: int): State {
    s.(owners := Others(s.owners, key) + [Owner(key, newPayTo, at, Some(at))])
  }

  function RecordMarker(s: State, id: MarkerId, settledAt: int, expiresAt: int): State {
    if HasMarker(s.markers, id) then s
    else s.(markers := s.markers + [Marker(id, settledAt, expiresAt, None)])
  }

  predicate Live(m: Marker, id: MarkerId, now: int) {
    m.id == id && m.consumedAt.None? && m.expiresAt > now
  }

  /** The UPDATE that spends a marker, and how many rows it touched. */
  function Spend(markers: seq<Marker>, id: MarkerId, now: int): (r: (seq<Marker>, nat))
    ensures |r.0| == |markers|
    ensures forall i :: 0 <= i < |markers| ==>
              r.0[i] == if Live(markers[i], id, now) then markers[i].(consumedAt := Some(now)) else markers[i]
  {
    if markers == [] then ([], 0)
    else
      var (rest, n) := Spend(markers[1..], id, now);
      if Live(markers[0], id, now) then ([markers[0].(consumedAt := Some(now))] + rest, n + 1)
      else ([markers[0]] + rest, n)
  }

  /** Spend the marker and move the binding, or roll everything back. */
  function Consume(s: State, id: MarkerId, now: int): (State, bool) {
    var (spent, n) := Spend(s.markers, id, now);
    if n != 1 then (s, false)
    else if FirstOwner(s.owners, id.key) != Some(id.oldPayTo) then (s, false)
    else (State(Others(s.owners, id.key) + [Owner(id.key, id.newPayTo, now, Some(now))], spent), true)
  }

  datatype Op =
    | OpBind(key: Key, payTo: Address, at: int)
    | OpMark(markKey: Key, markPayTo: Address, markAt: int)
    | OpDisplace(displaced: Key, claimant: Address, displacedAt: int)
    | OpRecord(id: MarkerId, settledAt: int, expiresAt: int)
    | OpConsume(spent: MarkerId, now: int)

  function Step(s: State, op: Op): (State, bool) {
    match op
    case OpBind(key, payTo, at) => Bind(s, key, payTo, at)
    case OpMark(key, payTo, at) => (MarkVerified(s, key, payTo, at), true)
    case OpDisplace(key, payTo, at) => (Displace(s, key, payTo, at), true)
    case OpRecord(id, settled, expires) => (RecordMarker(s, id, settled, expires), true)
    case OpConsume(id, now) => Consume(s, id, now)
  }

  function Exec(run: seq<Op>): State {
    if run == [] then State([], []) else Step(Exec(run[..|run| - 1]), run[|run| - 1]).0
  }

  // ---- Primary keys ----

  ghost predicate KeysHold(s: State) {
    && (forall i, j :: 0 <= i < j < |s.owners| ==>
          s.owners[i].key != s.owners[j].key || s.owners[i].payTo != s.owners[j].payTo)
    && (forall i, j :: 0 <= i < j < |s.markers| ==> s.markers[i].id != s.markers[j].id)
  }

  lemma {:induction false} OthersKeepKeys(owners: seq<Owner>, key: Key)
    requires KeysHold(State(owners, []))
    ensures KeysHold(State(Others(owners, key), []))
  {
    if owners == [] {
    } else {
      OthersKeepKeys(owners[1..], key);
      var rest := Others(owners[1..], key);
      forall i | 0 <= i < |rest| ensures rest[i].key != owners[0].key || rest[i].payTo != owners[0].payTo {
        assert rest[i] in owners[1..];
      }
    }
  }

  lemma ReplacedKeepsKeys(owners: seq<Owner>, key: Key, o: Owner)
    requires KeysHold(State(owners, [])) && o.key == key
    ensures KeysHold(State(Others(owners, key) + [o], []))
  {
    OthersKeepKeys(owners, key);
    assert forall i :: 0 <= i < |Others(owners, key)| ==> Others(owners, key)[i] in Others(owners, key);
  }

  lemma StepKeepsKeys(s: State, op: Op)
    requires KeysHold(s)
    ensures KeysHold(Step(s, op).0)
  {
    match op
    case OpDisplace(key, payTo, at) => ReplacedKeepsKeys(s.owners, key, Owner(key, payTo, at, Some(at)));
    case OpConsume(id, now) => ReplacedKeepsKeys(s.owners, id.key, Owner(id.key, id.newPayTo, now, Some(now)));
    case _ =>
  }

  lemma {:induction false} KeysAlwaysHold(run: seq<Op>)
    ensures KeysHold(Exec(run))
  {
    hide Step;
    if run == [] {
    } else {
      KeysAlwaysHold(run[..|run| - 1]);
      StepKeepsKeys(Exec(run[..|run| - 1]), run[|run| - 1]);
    }
  }

  // ---- Rotation ----

  ghost predicate LiveIn(s: State, id: MarkerId, now: int) {
    exists i :: 0 <= i < |s.markers| && Live(s.markers[i], id, now)
  }

  lemma {:induction false} SpendsTheLive(markers: seq<Marker>, id: MarkerId, now: int)
    ensures Spend(markers, id, now).1 > 0 <==> LiveIn(State([], markers), id, now)
  {
    if markers == [] {
    } else {
      SpendsTheLive(markers[1..], id, now);
      LiveInRest(markers, id, now);
    }
  }

  lemma LiveInRest(markers: seq<Marker>, id: MarkerId, now: int)
    requires markers != []
    ensures LiveIn(State([], markers), id, now) <==>
              Live(markers[0], id, now) || LiveIn(State([], markers[1..]), id, now)
  {
    hide Live;
    var s, rest := State([], markers), State([], markers[1..]);
    if LiveIn(rest, id, now) {
      var i :| 0 <= i < |rest.markers| && Live(rest.markers[i], id, now);
      assert Live(s.markers[i + 1], id, now);
    }
    if LiveIn(s, id, now) && !Live(markers[0], id, now) {
      var i :| 0 <= i < |markers| && Live(s.markers[i], id, now);
      assert Live(rest.markers[i - 1], id, now);
    }
    assert Live(markers[0], id, now) ==> Live(s.markers[0], id, now);
  }

  lemma {:induction false} SpendsAtMostOne(markers: seq<Marker>, id: MarkerId, now: int)
    requires KeysHold(State([], markers))
    ensures Spend(markers, id, now).1 <= 1
  {
    if markers == [] {
    } else {
      SpendsAtMostOne(markers[1..], id, now);
      SpendsTheLive(markers[1..], id, now);
      assert forall i :: 0 <= i < |markers| - 1 ==> markers[1..][i] == markers[i + 1];
    }
  }

  /**
   One rotation attempt, exactly. It succeeds if and only if the marker is live and the key's first row is its old
   owner; then the key has the one verified row of the new owner, other keys and markers are as they were, and the
   marker is spent. Otherwise both tables are unchanged.
   */
  lemma RotationIsExact(s: State, id: MarkerId, now: int)
    requires KeysHold(s)
    ensures var (t, moved) := Consume(s, id, now);
            && (moved <==> LiveIn(s, id, now) && FirstOwner(s.owners, id.key) == Some(id.oldPayTo))
            && (!moved ==> t == s)
            && (moved ==>
                  && RowsOf(t.owners, id.key) == [Owner(id.key, id.newPayTo, now, Some(now))]
                  && (forall k :: k != id.key ==> RowsOf(t.owners, k) == RowsOf(s.owners, k))
                  && |t.markers| == |s.markers|
                  && (forall i :: 0 <= i < |s.markers| ==>
                        t.markers[i] == if s.markers[i].id == id then s.markers[i].(consumedAt := Some(now))
                                        else s.markers[i]))
  {
    hide Spend, FirstOwner, RowsOf, Others;
    SpendsTheLive(s.markers, id, now);
    SpendsAtMostOne(s.markers, id, now);
    var (t, moved) := Consume(s, id, now);
    if moved {
      ReplacedRows(s.owners, id.key, Owner(id.key, id.newPayTo, now, Some(now)));
      var j :| 0 <= j < |s.markers| && Live(s.markers[j], id, now);
    }
  }

  lemma {:induction false} RowsOfOthers(owners: seq<Owner>, key: Key, k: Key)
    ensures RowsOf(Others(owners, key), k) == if k == key then [] else RowsOf(owners, k)
  {
    if owners == [] {
    } else {
      RowsOfOthers(owners[1..], key, k);
      RowsOfCons(owners[0], owners[1..], k);
      assert owners == [owners[0]] + owners[1..];
      if owners[0].key != key { RowsOfCons(owners[0], Others(owners[1..], key), k); }
    }
  }

  function RowFor(o: Owner, k: Key): seq<Owner> {
    if o.key == k then [o] else []
  }

  lemma {:induction false} RowsOfCons(o: Owner, owners: seq<Owner>, k: Key)
    ensures RowsOf([o] + owners, k) == RowFor(o, k) + RowsOf(owners, k)
  {
    if owners == [] {
      assert [o] + owners == [o] && [o][..0] == [];
    } else {
      hide RowsOf, RowFor;
      var init, last := owners[..|owners| - 1], owners[|owners| - 1];
      RowsOfCons(o, init, k);
      assert owners == init + [last];
      assert [o] + owners == ([o] + init) + [last];
      RowsOfSnoc(init, last, k);
      RowsOfSnoc([o] + init, last, k);
      assert (RowFor(o, k) + RowsOf(init, k)) + RowFor(last, k) == RowFor(o, k) + (RowsOf(init, k) + RowFor(last, k));
    }
  }

  lemma RowsOfSnoc(owners: seq<Owner>, o: Owner, k: Key)
    ensures RowsOf(owners + [o], k) == RowsOf(owners, k) + RowFor(o, k)
  {
    assert (owners + [o])[..|owners|] == owners;
  }

  lemma ReplacedRows(owners: seq<Owner>, key: Key, o: Owner)
    requires o.key == key
    ensures RowsOf(Others(owners, key) + [o], key) == [o]
    ensures forall k :: k != key ==> RowsOf(Others(owners, key) + [o], k) == RowsOf(owners, k)
  {
    var r := Others(owners, key) + [o];
    assert r[..|r| - 1] == Others(owners, key);
    RowsOfOthers(owners, key, key);
    forall k | k != key ensures RowsOf(r, k) == RowsOf(owners, k) {
      RowsOfOthers(owners, key, k);
    }
  }

  /** A marker already spent. */
  ghost predicate IsSpent(s: State, id: MarkerId) {
    exists i :: 0 <= i < |s.markers| && s.markers[i].id == id && s.markers[i].consumedAt.Some?
  }

  /** Nothing re-arms a spent marker: not a replayed settlement, not a failed attempt, not another rotation. */
  lemma SpentStaysSpent(s: State, op: Op, id: MarkerId)
    requires IsSpent(s, id)
    ensures IsSpent(Step(s, op).0, id)
  {
    var i :| 0 <= i < |s.markers| && s.markers[i].id == id && s.markers[i].consumedAt.Some?;
    assert Step(s, op).0.markers[i].id == id && Step(s, op).0.markers[i].consumedAt.Some?;
  }

  ghost predicate EndsWithMove(run: seq<Op>, id: MarkerId) {
    run != [] && run[|run| - 1].OpConsume? && run[|run| - 1].spent == id
    && Step(Exec(run[..|run| - 1]), run[|run| - 1]).1
  }

  /** How many times a marker moved its binding. */
  ghost function Moves(run: seq<Op>, id: MarkerId): nat {
    if run == [] then 0 else Moves(run[..|run| - 1], id) + if EndsWithMove(run, id) then 1 else 0
  }

  /** One shot: over every run a marker moves ownership at most once, however often its settlement is replayed. */
  lemma {:induction false} MarkerMovesOnce(run: seq<Op>, id: MarkerId)
    ensures Moves(run, id) <= 1 && (Moves(run, id) == 1 ==> IsSpent(Exec(run), id))
  {
    hide Step;
    if run == [] {
    } else {
      var prefix, op := run[..|run| - 1], run[|run| - 1];
      var s := Exec(prefix);
      MarkerMovesOnce(prefix, id);
      KeysAlwaysHold(prefix);
      if IsSpent(s, id) { SpentStaysSpent(s, op, id); }
      if EndsWithMove(run, id) { MoveSpends(s, op); }
    }
  }

  lemma MoveSpends(s: State, op: Op)
    requires KeysHold(s) && op.OpConsume? && Step(s, op).1
    ensures !IsSpent(s, op.spent) && IsSpent(Step(s, op).0, op.spent)
  {
    hide FirstOwner, Others;
    var t := Consume(s, op.spent, op.now).0;
    SpendsTheLive(s.markers, op.spent, op.now);
    var j :| 0 <= j < |s.markers| && Live(s.markers[j], op.spent, op.now);
    assert t.markers[j].id == op.spent && t.markers[j].consumedAt == Some(op.now);
    assert forall i :: 0 <= i < |s.markers| && s.markers[i].id == op.spent ==> i == j;
  }

  /** A->B never completes as A->C: once one marker of an owner has moved the key, no other marker of that owner can. */
  lemma RotationCannotFork(s: State, id: MarkerId, now: int, other: MarkerId, later: int)
    requires KeysHold(s) && Consume(s, id, now).1 && id.newPayTo != id.oldPayTo
    requires other.key == id.key && other.oldPayTo == id.oldPayTo
    ensures var t := Consume(s, id, now).0;
            FirstOwner(t.owners, id.key) == Some(id.newPayTo) && Consume(t, other, later) == (t, false)
  {
    RotationIsExact(s, id, now);
    var t, o := Consume(s, id, now).0, Owner(id.key, id.newPayTo, now, Some(now));
    assert RowsOf(t.owners, id.key) == [o];
    assert Sort([o], ByBoundAt()) == [o] by {
      assert [o][..0] == [];
      assert Sort([], ByBoundAt()) == [];
    }
  }

  // ---- Bound and verified for good ----

  ghost predicate IsBound(s: State, key: Key) {
    exists o :: o in s.owners && o.key == key
  }

  ghost predicate IsVerified(s: State, key: Key) {
    exists o :: o in s.owners && o.key == key && o.verifiedAt.Some?
  }

  /** A key once bound always has a row, and once verified a verified row: no operation opens it to a first claim. */
  lemma BoundAndVerifiedForGood(s: State, op: Op, key: Key)
    ensures IsBound(s, key) ==> IsBound(Step(s, op).0, key)
    ensures IsVerified(s, key) ==> IsVerified(Step(s, op).0, key)
  {
    var t := Step(s, op).0;
    if op.OpDisplace? && key == op.displaced {
      assert t.owners[|t.owners| - 1] in t.owners;
    } else if op.OpConsume? && Step(s, op).1 && key == op.spent.key {
      assert t.owners[|t.owners| - 1] in t.owners;
    } else {
      forall o | o in s.owners && o.key == key
        ensures exists o' :: o' in t.owners && o'.key == key && (o.verifiedAt.Some? ==> o'.verifiedAt.Some?)
      {
        var i :| 0 <= i < |s.owners| && s.owners[i] == o;
        if op.OpMark? { assert t.owners[i] in t.owners; } else { assert o in t.owners; }
      }
    }
  }

  lemma {:induction false} OnceBoundAlwaysBound(run: seq<Op>, n: nat, key: Key)
    requires n <= |run|
    ensures IsBound(Exec(run[..n]), key) ==> IsBound(Exec(run), key)
    ensures IsVerified(Exec(run[..n]), key) ==> IsVerified(Exec(run), key)
  {
    hide Step;
    if n == |run| {
      assert run[..n] == run;
    } else {
      assert run[..|run| - 1][..n] == run[..n];
      OnceBoundAlwaysBound(run[..|run| - 1], n, key);
      BoundAndVerifiedForGood(Exec(run[..|run| - 1]), run[|run| - 1], key);
    }
  }

  // ---- Who owns a key ----

  /** Among a key's rows in order, a new one comes first only if it was bound strictly before the one now first. */
  lemma {:induction false} InsertFirst(o: Owner, sorted: seq<Owner>)
    requires sorted != [] && Sorted(sorted, ByBoundAt())
    ensures Insert(o, sorted, ByBoundAt())[0] == if o.boundAt < sorted[0].boundAt then o else sorted[0]
  {
    if |sorted| == 1 {
      assert sorted[..0] == [] && Insert(o, [], ByBoundAt()) == [o];
    } else {
      InsertFirst(o, sorted[..|sorted| - 1]);
    }
  }

  lemma MarkedLast(xs: seq<Owner>, x: Owner, key: Key, payTo: Address, at: int)
    ensures MarkAll(xs + [x], key, payTo, at) == MarkAll(xs, key, payTo, at) + [Marked(x, key, payTo, at)]
  {
  }

  lemma MarkedKeeps(o: Owner, key: Key, payTo: Address, at: int)
    ensures var m := Marked(o, key, payTo, at);
            m.key == o.key && m.payTo == o.payTo && m.boundAt == o.boundAt
  {
  }

  lemma RowsOfLast(owners: seq<Owner>, o: Owner, k: Key)
    ensures RowsOf(owners + [o], k) == if o.key == k then RowsOf(owners, k) + [o] else RowsOf(owners, k)
  {
    assert (owners + [o])[..|owners|] == owners;
  }

  lemma {:induction false} RowsOfMarked(owners: seq<Owner>, key: Key, payTo: Address, at: int, k: Key)
    ensures RowsOf(MarkAll(owners, key, payTo, at), k) == MarkAll(RowsOf(owners, k), key, payTo, at)
  {
    if owners == [] {
    } else {
      hide RowsOf, Marked, MarkAll;
      var init, last := owners[..|owners| - 1], owners[|owners| - 1];
      assert owners == init + [last];
      RowsOfMarked(init, key, payTo, at, k);
      MarkedLast(init, last, key, payTo, at);
      MarkedLast(RowsOf(init, k), last, key, payTo, at);
      MarkedKeeps(last, key, payTo, at);
      RowsOfLast(init, last, k);
      RowsOfLast(MarkAll(init, key, payTo, at), Marked(last, key, payTo, at), k);
    }
  }

  lemma InsertLast(x: Owner, xs: seq<Owner>, last: Owner)
    ensures Insert(x, xs + [last], ByBoundAt()) ==
            if last.boundAt <= x.boundAt then xs + [last] + [x] else Insert(x, xs, ByBoundAt()) + [last]
  {
    assert (xs + [last])[..|xs|] == xs;
  }

  lemma {:induction false} InsertMarked(x: Owner, xs: seq<Owner>, key: Key, payTo: Address, at: int)
    ensures Insert(Marked(x, key, payTo, at), MarkAll(xs, key, payTo, at), ByBoundAt())
            == MarkAll(Insert(x, xs, ByBoundAt()), key, payTo, at)
  {
    if xs == [] {
    } else {
      hide Insert, Marked, MarkAll;
      var init, last := xs[..|xs| - 1], xs[|xs| - 1];
      assert xs == init + [last];
      InsertMarked(x, init, key, payTo, at);
      MarkedKeeps(x, key, payTo, at);
      MarkedKeeps(last, key, payTo, at);
      MarkedLast(init, last, key, payTo, at);
      MarkedLast(xs, x, key, payTo, at);
      MarkedLast(Insert(x, init, ByBoundAt()), last, key, payTo, at);
      InsertLast(x, init, last);
      InsertLast(Marked(x, key, payTo, at), MarkAll(init, key, payTo, at), Marked(last, key, payTo, at));
    }
  }

  lemma {:induction false} SortMarked(xs: seq<Owner>, key: Key, payTo: Address, at: int)
    ensures Sort(MarkAll(xs, key, payTo, at), ByBoundAt()) == MarkAll(Sort(xs, ByBoundAt()), key, payTo, at)
  {
    if xs == [] {
    } else {
      hide Insert, Marked, MarkAll;
      var init, last := xs[..|xs| - 1], xs[|xs| - 1];
      assert xs == init + [last];
      SortMarked(init, key, payTo, at);
      InsertMarked(last, Sort(init, ByBoundAt()), key, payTo, at);
      MarkedLast(init, last, key, payTo, at);
      var m := MarkAll(init, key, payTo, at);
      assert (m + [Marked(last, key, payTo, at)])[..|m|] == m;
    }
  }

  /** The operation binds a new row of `k` strictly before the one now first: the clock has gone back. */
  ghost predicate ComesFirst(s: State, op: Op, k: Key)
    requires RowsOf(s.owners, k) != []
  {
    && op.OpBind? && op.key == k && !HasOwnerRow(s.owners, k, op.payTo)
    && op.at < OrderedRows(s.owners, k)[0].boundAt
  }

  ghost predicate Reassigns(s: State, op: Op, k: Key) {
    || (op.OpDisplace? && op.displaced == k)
    || (op.OpConsume? && op.spent.key == k && Step(s, op).1)
  }

  lemma MarkKeepsOwner(s: State, key: Key, payTo: Address, at: int, k: Key)
    requires RowsOf(s.owners, k) != []
    ensures FirstOwner(MarkVerified(s, key, payTo, at).owners, k) == FirstOwner(s.owners, k)
  {
    hide Sort, Insert, RowsOf, Marked, MarkAll;
    var sorted := Sort(RowsOf(s.owners, k), ByBoundAt());
    RowsOfMarked(s.owners, key, payTo, at, k);
    SortMarked(RowsOf(s.owners, k), key, payTo, at);
    MarkedKeeps(sorted[0], key, payTo, at);
  }

  lemma BindOwner(s: State, key: Key, payTo: Address, at: int, k: Key)
    requires RowsOf(s.owners, k) != []
    ensures FirstOwner(Bind(s, key, payTo, at).0.owners, k) ==
            if ComesFirst(s, OpBind(key, payTo, at), k) then Some(payTo) else FirstOwner(s.owners, k)
  {
    hide Sort, Insert, RowsOf, HasOwnerRow;
    var rows, o := RowsOf(s.owners, k), Owner(key, payTo, at, None);
    RowsOfLast(s.owners, o, k);
    SortedByBoundAt();
    SortSorts(rows, ByBoundAt());
    SortLast(rows, o);
    InsertFirst(o, Sort(rows, ByBoundAt()));
  }

  lemma SortLast(rows: seq<Owner>, o: Owner)
    ensures Sort(rows + [o], ByBoundAt()) == Insert(o, Sort(rows, ByBoundAt()), ByBoundAt())
  {
    assert (rows + [o])[..|rows|] == rows;
  }

  lemma FirstOwnerHasRow(owners: seq<Owner>, k: Key)
    requires RowsOf(owners, k) != []
    ensures FirstOwner(owners, k).Some? && HasOwnerRow(owners, k, FirstOwner(owners, k).value)
  {
    hide Sort, RowsOf;
    var rows := RowsOf(owners, k);
    SortedByBoundAt();
    SortSorts(rows, ByBoundAt());
    SameMultisetSameElements(rows, OrderedRows(owners, k));
    assert OrderedRows(owners, k)[0] in rows;
  }

  /**
   A bound key keeps its owner, exactly: unless a displacement or a rotation of that very key reassigns it, its owner
   changes if and only if a new row of it is bound strictly before the first one, and then to that row's recipient.
   */
  lemma OwnerStaysExactly(s: State, op: Op, k: Key)
    requires RowsOf(s.owners, k) != [] && !Reassigns(s, op, k)
    ensures FirstOwner(Step(s, op).0.owners, k) != FirstOwner(s.owners, k) <==> ComesFirst(s, op, k)
    ensures ComesFirst(s, op, k) ==> FirstOwner(Step(s, op).0.owners, k) == Some(op.payTo)
  {
    hide Bind, MarkVerified, Spend, Others, RowsOf, Sort, FirstOwner, HasOwnerRow;
    match op
    case OpBind(key, payTo, at) =>
      BindOwner(s, key, payTo, at, k);
      FirstOwnerHasRow(s.owners, k);
    case OpMark(key, payTo, at) => MarkKeepsOwner(s, key, payTo, at, k);
    case OpDisplace(key, payTo, at) =>
      ReplacedRows(s.owners, key, Owner(key, payTo, at, Some(at)));
      SameRowsSameOwner(s.owners, Step(s, op).0.owners, k);
    case OpRecord(_, _, _) =>
    case OpConsume(id, now) =>
      if Step(s, op).1 {
        ReplacedRows(s.owners, id.key, Owner(id.key, id.newPayTo, now, Some(now)));
        SameRowsSameOwner(s.owners, Step(s, op).0.owners, k);
      }
  }

  lemma SameRowsSameOwner(owners: seq<Owner>, others: seq<Owner>, k: Key)
    requires RowsOf(owners, k) == RowsOf(others, k)
    ensures FirstOwner(owners, k) == FirstOwner(others, k)
  {
  }

  /** After a displacement the claimant is the only owner, proven at that moment. */
  lemma DisplacedKeyIsTheClaimants(s: State, key: Key, claimant: Address, at: int)
    ensures var t := Displace(s, key, claimant, at);
            && t.markers == s.markers
            && FirstOwner(t.owners, key) == Some(claimant)
            && RowsOf(t.owners, key) == [Owner(key, claimant, at, Some(at))]
            && forall k :: k != key ==> RowsOf(t.owners, k) == RowsOf(s.owners, k)
  {
    var o := Owner(key, claimant, at, Some(at));
    ReplacedRows(s.owners, key, o);
    assert [o][..0] == [] && Sort([], ByBoundAt()) == [] && Insert(o, [], ByBoundAt()) == [o];
  }

  // ---- Loading ----

  /** A key's binding as the catalog receives it: all its recipients in order, and whether any row was proven. */
  datatype StoredOwnership = StoredOwnership(
    resourceKey: Key, boundPayTo: seq<Address>, boundAt: int, everVerified: bool)

  function PayTos(rows: seq<Owner>): seq<Address> {
    if rows == [] then [] else PayTos(rows[..|rows| - 1]) + [rows[|rows| - 1].payTo]
  }

  /** A stable sort of the whole table sorts each key's rows stably. */
  lemma {:induction false} InsertCommutes(x: Owner, xs: seq<Owner>, k: Key)
    requires Sorted(xs, ByBoundAt())
    ensures RowsOf(Insert(x, xs, ByBoundAt()), k) ==
            if x.key == k then Insert(x, RowsOf(xs, k), ByBoundAt()) else RowsOf(xs, k)
  {
    var le := ByBoundAt();
    if xs == [] {
      assert [x][..0] == [];
    } else {
      var init, last := xs[..|xs| - 1], xs[|xs| - 1];
      if le(last, x) {
        assert (xs + [x])[..|xs|] == xs;
        var rows := RowsOf(xs, k);
        if rows != [] {
          assert rows[|rows| - 1] in xs;
          var i :| 0 <= i < |xs| && xs[i] == rows[|rows| - 1];
          assert le(xs[i], last);
        }
      } else {
        InsertCommutes(x, init, k);
        var r := Insert(x, init, le);
        assert (r + [last])[..|r|] == r;
        if last.key == k {
          var rows := RowsOf(init, k);
          assert (rows + [last])[..|rows|] == rows;
        }
      }
    }
  }

  lemma {:induction false} SortCommutes(owners: seq<Owner>, k: Key)
    ensures RowsOf(Sort(owners, ByBoundAt()), k) == OrderedRows(owners, k)
  {
    if owners == [] {
    } else {
      var init, last := owners[..|owners| - 1], owners[|owners| - 1];
      SortCommutes(init, k);
      SortedByBoundAt();
      SortSorts(init, ByBoundAt());
      InsertCommutes(last, Sort(init, ByBoundAt()), k);
      var rows := RowsOf(init, k);
      assert (rows + [last])[..|rows|] == rows;
    }
  }

  ghost predicate AnyVerified(rows: seq<Owner>) {
    exists i :: 0 <= i < |rows| && rows[i].verifiedAt.Some?
  }

  /** What one key's rows, in order, say about its binding. */
  ghost predicate Describes(b: StoredOwnership, key: Key, rows: seq<Owner>) {
    && b.resourceKey == key && b.boundPayTo == PayTos(rows)
    && (b.everVerified <==> AnyVerified(rows))
    && rows != [] && b.boundAt == rows[0].boundAt
  }

  ghost predicate Grouped(bindings: map<Key, StoredOwnership>, rows: seq<Owner>) {
    && (forall k :: k in bindings <==> RowsOf(rows, k) != [])
    && (forall k :: k in bindings ==> Describes(bindings[k], k, RowsOf(rows, k)))
  }

  /** One more row: into its key's group, or a group of its own. */
  function GroupRow(bindings: map<Key, StoredOwnership>, r: Owner): map<Key, StoredOwnership> {
    if r.key in bindings then
      var b := bindings[r.key];
      bindings[r.key := StoredOwnership(r.key, b.boundPayTo + [r.payTo],
                                        if r.boundAt < b.boundAt then r.boundAt else b.boundAt,
                                        b.everVerified || r.verifiedAt.Some?)]
    else
      bindings[r.key := StoredOwnership(r.key, [r.payTo], r.boundAt, r.verifiedAt.Some?)]
  }

  lemma DescribesOneMore(b: StoredOwnership, rows: seq<Owner>, r: Owner)
    requires Describes(b, r.key, rows) && rows[0].boundAt <= r.boundAt
    ensures Describes(StoredOwnership(r.key, b.boundPayTo + [r.payTo], b.boundAt,
                                      b.everVerified || r.verifiedAt.Some?), r.key, rows + [r])
  {
    assert (rows + [r])[..|rows|] == rows;
    assert (rows + [r])[|rows|] == r;
    assert forall j :: 0 <= j < |rows| ==> (rows + [r])[j] == rows[j];
  }

  lemma DescribesOne(r: Owner)
    ensures Describes(StoredOwnership(r.key, [r.payTo], r.boundAt, r.verifiedAt.Some?), r.key, [r])
  {
    assert [r][..0] == [];
    assert PayTos([]) == [];
    assert [r][0] == r;
  }

  lemma DescribedStart(b: StoredOwnership, key: Key, rows: seq<Owner>)
    requires Describes(b, key, rows)
    ensures rows != [] && b.boundAt == rows[0].boundAt
  {
  }

  lemma NothingGrouped()
    ensures Grouped(map[], [])
  {
  }

  lemma GroupOneMore(bindings: map<Key, StoredOwnership>, rows: seq<Owner>, r: Owner)
    requires Grouped(bindings, rows) && forall o :: o in rows ==> o.boundAt <= r.boundAt
    ensures Grouped(GroupRow(bindings, r), rows + [r])
  {
    hide Describes;
    assert (rows + [r])[..|rows|] == rows;
    var seen := RowsOf(rows, r.key);
    if r.key in bindings {
      assert seen[0] in seen;
      assert bindings[r.key].boundAt == seen[0].boundAt by { DescribedStart(bindings[r.key], r.key, seen); }
      DescribesOneMore(bindings[r.key], seen, r);
    } else {
      DescribesOne(r);
      assert seen + [r] == [r];
    }
  }

  class Store {
    var owners: seq<Owner>
    var markers: seq<Marker>

    ghost function Abs(): State
      reads this
    {
      State(owners, markers)
    }

    constructor ()
      ensures Abs() == State([], [])
    {
      owners, markers := [], [];
    }

    method DoBind(key: Key, payTo: Address, at: int) returns (ok: bool)
      modifies this
      ensures (Abs(), ok) == Bind(old(Abs()), key, payTo, at)
    {
      if HasOwnerRow(owners, key, payTo) { return false; }
      owners := owners + [Owner(key, payTo, at, None)];
      return true;
    }

    method DoMarkVerified(key: Key, payTo: Address, at: int)
      modifies this
      ensures Abs() == MarkVerified(old(Abs()), key, payTo, at)
    {
      ghost var before := owners;
      for i := 0 to |owners|
        invariant |owners| == |before| && markers == old(markers)
        invariant forall j :: 0 <= j < |owners| ==>
                    owners[j] == if j < i then Marked(before[j], key, payTo, at) else before[j]
      {
        var row := owners[i];
        if row.key == key && row.payTo == payTo && row.verifiedAt.None? {
          owners := owners[i := row.(verifiedAt := Some(at))];
        }
      }
      assert owners == MarkAll(before, key, payTo, at);
    }

    method DoDisplace(key: Key, newPayTo: Address, at: int)
      modifies this
      ensures Abs() == Displace(old(Abs()), key, newPayTo, at)
    {
      owners := Others(owners, key);
      owners := owners + [Owner(key, newPayTo, at, Some(at))];
    }

    method DoRecordMarker(id: MarkerId, settledAt: int, expiresAt: int)
      modifies this
      ensures Abs() == RecordMarker(old(Abs()), id, settledAt, expiresAt)
    {
      if !HasMarker(markers, id) { markers := markers + [Marker(id, settledAt, expiresAt, None)]; }
    }

    /** The interactive transaction: spend, look, then move or roll back. */
    method DoConsume(id: MarkerId, now: int) returns (moved: bool)
      modifies this
      ensures (Abs(), moved) == Consume(old(Abs()), id, now)
    {
      var beforeOwners, beforeMarkers := owners, markers;
      var (spent, rowsAffected) := Spend(markers, id, now);
      markers := spent;
      if rowsAffected != 1 {
        markers := beforeMarkers;
        return false;
      }
      var first := FirstOwner(owners, id.key);
      if first != Some(id.oldPayTo) {
        markers := beforeMarkers;
        return false;
      }
      owners := Others(owners, id.key);
      owners := owners + [Owner(id.key, id.newPayTo, now, Some(now))];
      return true;
    }

    /** Group the ordered rows by key: every key with a row appears once, described by its rows in owner order. */
    method LoadOwnership() returns (bindings: map<Key, StoredOwnership>)
      ensures forall k :: k in bindings <==> RowsOf(owners, k) != []
      ensures forall k :: k in bindings ==> Describes(bindings[k], k, OrderedRows(owners, k))
    {
      hide Sort, RowsOf, Describes;
      var rows := Sort(owners, ByBoundAt());
      SortedByBoundAt();
      SortSorts(owners, ByBoundAt());
      bindings := map[];
      NothingGrouped();
      assert rows[..0] == [];
      for i := 0 to |rows|
        invariant Grouped(bindings, rows[..i])
      {
        assert rows[..i + 1] == rows[..i] + [rows[i]];
        assert forall o :: o in rows[..i] ==> o.boundAt <= rows[i].boundAt;
        GroupOneMore(bindings, rows[..i], rows[i]);
        bindings := GroupRow(bindings, rows[i]);
      }
      assert rows[..|rows|] == rows;
      forall k ensures RowsOf(rows, k) == OrderedRows(owners, k) && |OrderedRows(owners, k)| == |RowsOf(owners, k)| {
        SortCommutes(owners, k);
        SortSorts(RowsOf(owners, k), ByBoundAt());
      }
    }
  }
}
