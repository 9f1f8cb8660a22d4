/**
 The ownership and rotation tables read off the operations that wrote them: how a key comes to be bound and proven, what
 a marker says, and exactly when a rotation goes through.
 */
module StoreHistory {
  import opened Basics
  import opened OwnershipStore
  import opened Sorting

  // ---- One row, one key ----

  /** The row is in the table. */
  ghost predicate Has(owners: seq<Owner>, key: Key, payTo: Address) {
    exists o :: o in owners && o.key == key && o.payTo == payTo
  }

  lemma HasRow(owners: seq<Owner>, key: Key, payTo: Address)
    ensures HasOwnerRow(owners, key, payTo) <==> Has(owners, key, payTo)
  {
    if HasOwnerRow(owners, key, payTo) {
      var i :| 0 <= i < |owners| && owners[i].key == key && owners[i].payTo == payTo;
      assert owners[i] in owners;
    }
  }

  /**
   A settlement that binds. It goes through if and only if the key has no row for this recipient; then the key's rows
   have one more, bound at that moment and proven by nobody, and no other row changes.
   */
  lemma BindIsExact(s: State, key: Key, payTo: Address, at: int)
    ensures var (t, ok) := Bind(s, key, payTo, at);
            && (ok <==> !Has(s.owners, key, payTo))
            && t == (if ok then s.(owners := s.owners + [Owner(key, payTo, at, None)]) else s)
            && forall k :: RowsOf(t.owners, k) ==
                 RowsOf(s.owners, k) + if ok && k == key then [Owner(key, payTo, at, None)] else []
  {
    hide RowsOf;
    HasRow(s.owners, key, payTo);
    forall k ensures RowsOf(Bind(s, key, payTo, at).0.owners, k) ==
                     RowsOf(s.owners, k) + if Bind(s, key, payTo, at).1 && k == key
                                           then [Owner(key, payTo, at, None)] else [] {
      RowsOfLast(s.owners, Owner(key, payTo, at, None), k);
      assert RowsOf(s.owners, k) + [] == RowsOf(s.owners, k);
    }
  }

  /** A proof marks the row it names, unless that was proven before, and leaves every other row as it was. */
  lemma MarkIsExact(s: State, key: Key, payTo: Address, at: int)
    ensures var t := MarkVerified(s, key, payTo, at);
            && t.markers == s.markers && |t.owners| == |s.owners|
            && forall i :: 0 <= i < |s.owners| ==>
                 var o := s.owners[i];
                 t.owners[i] == Owner(o.key, o.payTo, o.boundAt,
                                      if o.key == key && o.payTo == payTo && o.verifiedAt == None then Some(at)
                                      else o.verifiedAt)
  {
  }

  // ---- What proves a key ----

  /** The operation proves the key: a proof of one of its rows, a displacement of it, or a rotation that moved it. */
  ghost predicate Proves(s: State, op: Op, k: Key) {
    || (op.OpMark? && op.markKey == k && Has(s.owners, k, op.markPayTo))
    || (op.OpDisplace? && op.displaced == k)
    || (op.OpConsume? && op.spent.key == k && Step(s, op).1)
  }

  /** A key becomes proven by nothing else: a settlement proves nothing, and neither does recording a marker. */
  lemma ProvenExactly(s: State, op: Op, k: Key)
    ensures IsVerified(Step(s, op).0, k) <==> IsVerified(s, k) || Proves(s, op, k)
  {
    hide Consume, Others;
    var t := Step(s, op).0;
    BoundAndVerifiedForGood(s, op, k);
    match op
    case OpBind(key, payTo, at) =>
      assert IsVerified(t, k) ==> IsVerified(s, k);
    case OpMark(key, payTo, at) => MarkProves(s, key, payTo, at, k);
    case OpDisplace(key, payTo, at) => ReplacedProves(s.owners, key, Owner(key, payTo, at, Some(at)), k);
    case OpRecord(_, _, _) =>
    case OpConsume(id, now) =>
      ConsumeMoves(s, id, now);
      ReplacedProves(s.owners, id.key, Owner(id.key, id.newPayTo, now, Some(now)), k);
  }

  lemma ConsumeMoves(s: State, id: MarkerId, now: int)
    ensures var (t, moved) := Consume(s, id, now);
            t.owners == if moved then Others(s.owners, id.key) + [Owner(id.key, id.newPayTo, now, Some(now))]
                        else s.owners
  {
  }

  ghost predicate ProvenAt(owners: seq<Owner>, k: Key, i: int) {
    0 <= i < |owners| && owners[i].key == k && owners[i].verifiedAt.Some?
  }

  lemma VerifiedAtSomeRow(s: State, k: Key)
    ensures IsVerified(s, k) <==> exists i :: ProvenAt(s.owners, k, i)
  {
    if IsVerified(s, k) {
      var o :| o in s.owners && o.key == k && o.verifiedAt.Some?;
      var i :| 0 <= i < |s.owners| && s.owners[i] == o;
      assert ProvenAt(s.owners, k, i);
    }
    if i :| ProvenAt(s.owners, k, i) { assert s.owners[i] in s.owners; }
  }

  lemma MarkProves(s: State, key: Key, payTo: Address, at: int, k: Key)
    ensures IsVerified(MarkVerified(s, key, payTo, at), k) <==>
              IsVerified(s, k) || (k == key && Has(s.owners, key, payTo))
  {
    hide MarkVerified, IsVerified;
    var t := MarkVerified(s, key, payTo, at);
    MarkIsExact(s, key, payTo, at);
    VerifiedAtSomeRow(s, k);
    VerifiedAtSomeRow(t, k);
    if i :| ProvenAt(s.owners, k, i) { assert ProvenAt(t.owners, k, i); }
    if k == key && Has(s.owners, key, payTo) {
      var o :| o in s.owners && o.key == key && o.payTo == payTo;
      var i :| 0 <= i < |s.owners| && s.owners[i] == o;
      assert ProvenAt(t.owners, k, i);
    }
    if i :| ProvenAt(t.owners, k, i) {
      assert s.owners[i] in s.owners;
      assert ProvenAt(s.owners, k, i) || (k == key && s.owners[i].payTo == payTo);
    }
  }

  lemma ReplacedProves(owners: seq<Owner>, key: Key, o: Owner, k: Key)
    requires o.key == key && o.verifiedAt.Some?
    ensures IsVerified(State(Others(owners, key) + [o], []), k) <==> k == key || IsVerified(State(owners, []), k)
  {
    var r := Others(owners, key) + [o];
    assert o in r;
    assert forall x :: x in r <==> x in Others(owners, key) || x == o;
  }

  ghost predicate ProvesAt(run: seq<Op>, k: Key, i: int) {
    0 <= i < |run| && Proves(Exec(run[..i]), run[i], k)
  }

  ghost predicate ProvedIn(run: seq<Op>, k: Key) {
    exists i :: ProvesAt(run, k, i)
  }

  lemma ProvesInPrefix(run: seq<Op>, k: Key)
    requires run != []
    ensures ProvedIn(run, k) <==>
              ProvedIn(run[..|run| - 1], k) || Proves(Exec(run[..|run| - 1]), run[|run| - 1], k)
  {
    hide Exec, Proves;
    var prefix, n := run[..|run| - 1], |run| - 1;
    assert forall i :: 0 <= i < n ==> prefix[..i] == run[..i] && prefix[i] == run[i];
    if i :| ProvesAt(run, k, i) { assert i == n || ProvesAt(prefix, k, i); }
    if i :| ProvesAt(prefix, k, i) { assert ProvesAt(run, k, i); }
    assert Proves(Exec(prefix), run[n], k) ==> ProvesAt(run, k, n);
  }

  /** Over every run: a key is proven if and only if some operation of the run proved it. */
  lemma {:induction false} ProvenByHistory(run: seq<Op>, k: Key)
    ensures IsVerified(Exec(run), k) <==> ProvedIn(run, k)
  {
    if run == [] {
      NothingYet(k);
    } else {
      hide Step, Proves, IsVerified, ProvedIn;
      ProvenByHistory(run[..|run| - 1], k);
      ProvenExactly(Exec(run[..|run| - 1]), run[|run| - 1], k);
      ProvesInPrefix(run, k);
    }
  }

  lemma NothingYet(k: Key)
    ensures !IsVerified(Exec([]), k) && !IsBound(Exec([]), k)
  {
  }

  // ---- Who is first ----

  /** The key's first owner is the recipient of its earliest row, and of equally early ones the first written. */
  ghost predicate Earliest(owners: seq<Owner>, k: Key, i: int) {
    && 0 <= i < |owners| && owners[i].key == k
    && forall j :: 0 <= j < |owners| && owners[j].key == k ==>
         owners[i].boundAt < owners[j].boundAt || (owners[i].boundAt == owners[j].boundAt && i <= j)
  }

  lemma OneRowFirst(owners: seq<Owner>, last: Owner)
    ensures RowsOf(owners, last.key) == [] ==> OrderedRows(owners + [last], last.key) == [last]
    ensures RowsOf(owners, last.key) != [] ==>
              && OrderedRows(owners, last.key) != [] && OrderedRows(owners + [last], last.key) != []
              && OrderedRows(owners + [last], last.key)[0] ==
                   if last.boundAt < OrderedRows(owners, last.key)[0].boundAt then last
                   else OrderedRows(owners, last.key)[0]
  {
    hide Sort, Insert, RowsOf;
    var rows := RowsOf(owners, last.key);
    RowsOfLast(owners, last, last.key);
    SortLast(rows, last);
    if rows == [] {
      SortNothing(last);
    } else {
      SortedByBoundAt();
      SortSorts(rows, ByBoundAt());
      InsertFirst(last, Sort(rows, ByBoundAt()));
    }
  }

  lemma SortNothing(o: Owner)
    ensures Sort([], ByBoundAt()) == [] && Insert(o, [], ByBoundAt()) == [o]
  {
  }

  lemma NoRows(owners: seq<Owner>, k: Key)
    ensures RowsOf(owners, k) == [] <==> forall o :: o in owners ==> o.key != k
  {
    assert RowsOf(owners, k) != [] ==> RowsOf(owners, k)[0] in RowsOf(owners, k);
  }

  lemma {:induction false} FirstRowIsEarliest(owners: seq<Owner>, k: Key) returns (i: int)
    requires RowsOf(owners, k) != []
    ensures Earliest(owners, k, i) && OrderedRows(owners, k)[0] == owners[i]
  {
    hide RowsOf, OrderedRows;
    NoRows(owners, k);
    if owners == [] {
      i := 0;
    } else {
      var init, last := owners[..|owners| - 1], owners[|owners| - 1];
      assert owners == init + [last];
      NoRows(init, k);
      RowsOfLast(init, last, k);
      if last.key == k { OneRowFirst(init, last); } else { SameRows(init, last, k); }
      i := |init|;
      if RowsOf(init, k) != [] {
        var j := FirstRowIsEarliest(init, k);
        if last.key != k || init[j].boundAt <= last.boundAt { i := j; }
      }
    }
  }

  lemma SameRows(owners: seq<Owner>, last: Owner, k: Key)
    requires last.key != k
    ensures OrderedRows(owners + [last], k) == OrderedRows(owners, k)
  {
    RowsOfLast(owners, last, k);
  }

  /** The owner a reader sees is the recipient of the earliest row. */
  lemma OwnerIsEarliest(owners: seq<Owner>, k: Key, i: int)
    requires Earliest(owners, k, i)
    ensures FirstOwner(owners, k) == Some(owners[i].payTo)
  {
    hide Sort, RowsOf;
    NoRows(owners, k);
    assert owners[i] in owners;
    var j := FirstRowIsEarliest(owners, k);
  }

  // ---- Markers ----

  /** What the marker was first recorded with: when it was settled, and when it expires. */
  ghost function FirstRecord(run: seq<Op>, id: MarkerId): Option<(int, int)> {
    if run == [] then None
    else
      var before, op := FirstRecord(run[..|run| - 1], id), run[|run| - 1];
      if before.None? && op.OpRecord? && op.id == id then Some((op.settledAt, op.expiresAt)) else before
  }

  /** When the marker moved its binding, if it did. */
  ghost function MovedAt(run: seq<Op>, id: MarkerId): Option<int> {
    if run == [] then None
    else if EndsWithMove(run, id) then Some(run[|run| - 1].now)
    else MovedAt(run[..|run| - 1], id)
  }

  /** What the table says of one marker. */
  ghost predicate Says(markers: seq<Marker>, id: MarkerId, first: Option<(int, int)>, moved: Option<int>) {
    if first.None? then forall m :: m in markers ==> m.id != id
    else exists i :: 0 <= i < |markers| && markers[i] == Marker(id, first.value.0, first.value.1, moved)
  }

  lemma RecordSays(s: State, id: MarkerId, settledAt: int, expiresAt: int, other: MarkerId, first: Option<(int, int)>,
                   moved: Option<int>)
    requires Says(s.markers, other, first, moved) && (first.None? ==> moved.None?)
    ensures Says(RecordMarker(s, id, settledAt, expiresAt).markers, other,
                 if first.None? && id == other then Some((settledAt, expiresAt)) else first, moved)
  {
    var t := RecordMarker(s, id, settledAt, expiresAt);
    if HasMarker(s.markers, id) {
      var i :| 0 <= i < |s.markers| && s.markers[i].id == id;
      assert s.markers[i] in s.markers;
    } else {
      assert t.markers[|s.markers|] == Marker(id, settledAt, expiresAt, None);
      if first.Some? {
        var i :| 0 <= i < |s.markers| && s.markers[i] == Marker(other, first.value.0, first.value.1, moved);
        assert t.markers[i] == s.markers[i];
      }
    }
  }

  lemma ConsumeSays(s: State, id: MarkerId, now: int, other: MarkerId, first: Option<(int, int)>, moved: Option<int>)
    requires KeysHold(s) && Says(s.markers, other, first, moved)
    ensures var (t, ok) := Consume(s, id, now);
            Says(t.markers, other, first, if ok && id == other then Some(now) else moved)
  {
    hide RowsOf, FirstOwner;
    RotationIsExact(s, id, now);
    var (t, ok) := Consume(s, id, now);
    if first.Some? {
      var i :| 0 <= i < |s.markers| && s.markers[i] == Marker(other, first.value.0, first.value.1, moved);
      assert ok ==> t.markers[i] == if s.markers[i].id == id then s.markers[i].(consumedAt := Some(now))
                                    else s.markers[i];
      var after := if ok && id == other then Some(now) else moved;
      assert t.markers[i] == Marker(other, first.value.0, first.value.1, after);
    } else if ok {
      forall m | m in t.markers ensures m.id != other {
        var i :| 0 <= i < |t.markers| && t.markers[i] == m;
        assert s.markers[i] in s.markers;
      }
    }
  }

  /**
   The marker table, exactly. A marker is there if and only if it was recorded; it says what it was first recorded with,
   however often its settlement is replayed; and it is consumed at the moment it moved its binding, if it did.
   */
  lemma {:induction false} MarkersMatchHistory(run: seq<Op>, id: MarkerId)
    ensures Says(Exec(run).markers, id, FirstRecord(run, id), MovedAt(run, id))
    ensures FirstRecord(run, id).None? ==> MovedAt(run, id).None?
  {
    hide Says, Bind, MarkVerified, Displace, RecordMarker, Consume;
    if run == [] {
      NoMarkerYet(id);
    } else {
      var prefix, op := run[..|run| - 1], run[|run| - 1];
      var s := Exec(prefix);
      MarkersMatchHistory(prefix, id);
      KeysAlwaysHold(prefix);
      OthersKeepMarkers(s, op);
      match op
      case OpRecord(other, settled, expires) =>
        RecordSays(s, other, settled, expires, id, FirstRecord(prefix, id), MovedAt(prefix, id));
      case OpConsume(other, now) =>
        ConsumeSays(s, other, now, id, FirstRecord(prefix, id), MovedAt(prefix, id));
        MovesOnlyTheRecorded(s, other, now, FirstRecord(prefix, other), MovedAt(prefix, other));
        MarkersMatchHistory(prefix, other);
      case _ =>
    }
  }

  lemma NoMarkerYet(id: MarkerId)
    ensures Says(Exec([]).markers, id, None, None)
  {
  }

  lemma OthersKeepMarkers(s: State, op: Op)
    ensures !op.OpRecord? && !op.OpConsume? ==> Step(s, op).0.markers == s.markers
  {
  }

  /**
   A marker that says this moves its binding exactly when it is neither spent nor expired and the old owner is first.
   */
  lemma MovesOnlyTheRecorded(s: State, id: MarkerId, now: int, first: Option<(int, int)>, moved: Option<int>)
    ensures KeysHold(s) && Says(s.markers, id, first, moved) ==>
              (Consume(s, id, now).1 <==>
                 first.Some? && moved.None? && first.value.1 > now && FirstOwner(s.owners, id.key) == Some(id.oldPayTo))
  {
    if KeysHold(s) && Says(s.markers, id, first, moved) {
      hide FirstOwner, Spend;
      SpendsTheLive(s.markers, id, now);
      SpendsAtMostOne(s.markers, id, now);
      SaysLive(s, id, now, first, moved);
    }
  }

  lemma SaysLive(s: State, id: MarkerId, now: int, first: Option<(int, int)>, moved: Option<int>)
    requires KeysHold(s) && Says(s.markers, id, first, moved)
    ensures LiveIn(s, id, now) <==> first.Some? && moved.None? && first.value.1 > now
    ensures LiveIn(State([], s.markers), id, now) <==> LiveIn(s, id, now)
  {
    if first.None? {
      assert forall i :: 0 <= i < |s.markers| ==> s.markers[i] in s.markers;
    } else {
      var i :| 0 <= i < |s.markers| && s.markers[i] == Marker(id, first.value.0, first.value.1, moved);
      if moved.None? && first.value.1 > now { assert Live(s.markers[i], id, now); }
    }
  }

  /**
   When a rotation goes through, over every run: if and only if its marker was recorded, has not expired by what it was
   first recorded with, never moved the binding before, and the key's first owner is the one that signed it away.
   */
  lemma RotatesExactly(run: seq<Op>, id: MarkerId, now: int)
    ensures var s, first := Exec(run), FirstRecord(run, id);
            Consume(s, id, now).1 <==>
              && first.Some? && first.value.1 > now && MovedAt(run, id).None?
              && FirstOwner(s.owners, id.key) == Some(id.oldPayTo)
  {
    hide Consume, Says, KeysHold, FirstOwner;
    MarkersMatchHistory(run, id);
    KeysAlwaysHold(run);
    MovesOnlyTheRecorded(Exec(run), id, now, FirstRecord(run, id), MovedAt(run, id));
  }
}
