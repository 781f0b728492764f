/** The process-wide reservation ledger and its permits, on 64-bit arithmetic. */
module Ledger {
  import opened Prelude

  const GIB: U64 := 1024 * 1024 * 1024

  type FilesystemKey = string

  datatype ReservationError =
    | Overflow
    | LedgerPoisoned
    | InsufficientSpace(available: U64, activeReserved: U64, required: U64)

  datatype Permit = Permit(key: FilesystemKey, bytes: U64)

  /** Five per cent of the filesystem, but never under 2 GiB nor over 16 GiB. */
  function Headroom(total: U64): (h: U64)
    ensures 2 * GIB <= h <= 16 * GIB
  {
    Max(2 * GIB, Min(total / 20, 16 * GIB))
  }

  /** Twenty headrooms make up the filesystem, but for the remainder and outside the two bounds. */
  lemma HeadroomIsOneTwentieth(total: U64)
    ensures var h := Headroom(total);
      && (total < 40 * GIB ==> h == 2 * GIB)
      && (total >= 320 * GIB ==> h == 16 * GIB)
      && (40 * GIB <= total < 320 * GIB ==> 20 * h <= total < 20 * (h + 1))
  {
    var part := total / 20;
    assert 20 * part <= total < 20 * part + 20;
  }

  function Entry(m: map<FilesystemKey, U64>, key: FilesystemKey): U64 {
    if key in m then m[key] else 0
  }

  /** The bytes that the permits of one filesystem hold together. */
  function Held(permits: seq<Permit>, key: FilesystemKey): nat {
    if permits == [] then 0
    else (if permits[0].key == key then permits[0].bytes else 0) + Held(permits[1..], key)
  }

  /** Every entry is the sum of its permits, and there is an entry exactly when there is a permit. */
  ghost predicate Conserved(m: map<FilesystemKey, U64>, permits: seq<Permit>) {
    && (forall p :: p in permits ==> p.bytes >= 2 * GIB)
    && (forall key :: Entry(m, key) == Held(permits, key))
    && (forall key :: key in m <==> exists i :: 0 <= i < |permits| && permits[i].key == key)
  }

  function Without(permits: seq<Permit>, at: nat): seq<Permit>
    requires at < |permits|
  {
    permits[..at] + permits[at + 1..]
  }

  lemma {:induction false} HeldConcat(a: seq<Permit>, b: seq<Permit>, key: FilesystemKey)
    ensures Held(a + b, key) == Held(a, key) + Held(b, key)
  {
    if a == [] {
      assert a + b == b;
    } else {
      HeldConcat(a[1..], b, key);
      assert (a + b)[1..] == a[1..] + b;
    }
  }

  lemma HeldWithout(permits: seq<Permit>, at: nat, key: FilesystemKey)
    requires at < |permits|
    ensures Held(permits, key)
         == Held(Without(permits, at), key) + (if permits[at].key == key then permits[at].bytes else 0)
  {
    var p := permits[at];
    assert permits == permits[..at] + ([p] + permits[at + 1..]);
    HeldConcat(permits[..at], [p] + permits[at + 1..], key);
    HeldConcat([p], permits[at + 1..], key);
    HeldConcat(permits[..at], permits[at + 1..], key);
    assert Held([p], key) == if p.key == key then p.bytes else 0;
  }

  lemma NewPermitIsHeld(permits: seq<Permit>, p: Permit)
    ensures Held(permits + [p], p.key) == Held(permits, p.key) + p.bytes
  {
    HeldConcat(permits, [p], p.key);
    assert Held([p], p.key) == p.bytes;
  }

  lemma AnyPermitIsCovered(permits: seq<Permit>, at: nat)
    requires at < |permits|
    ensures permits[at].bytes <= Held(permits, permits[at].key)
  {
    HeldWithout(permits, at, permits[at].key);
  }

  /** A new entry of exactly the old sum plus the new permit keeps the books balanced. */
  lemma ReserveConserves(m: map<FilesystemKey, U64>, permits: seq<Permit>, p: Permit)
    requires Conserved(m, permits) && p.bytes >= 2 * GIB && Entry(m, p.key) + p.bytes <= U64_MAX
    ensures Conserved(m[p.key := Entry(m, p.key) + p.bytes], permits + [p])
  {
    var n, after := m[p.key := Entry(m, p.key) + p.bytes], permits + [p];
    forall key
      ensures Entry(n, key) == Held(after, key)
    {
      HeldConcat(permits, [p], key);
      assert Held([p], key) == if p.key == key then p.bytes else 0;
    }
    forall key
      ensures key in n <==> exists i :: 0 <= i < |after| && after[i].key == key
    {
      assert after[|permits|].key == p.key;
      if i :| 0 <= i < |permits| && permits[i].key == key { assert after[i].key == key; }
    }
  }

  function Released(m: map<FilesystemKey, U64>, p: Permit): map<FilesystemKey, U64> {
    if p.key !in m then m
    else if m[p.key] <= p.bytes then m - {p.key}
    else m[p.key := m[p.key] - p.bytes]
  }

  /** The entry disappears with its last permit and not before. */
  lemma ReleaseConserves(m: map<FilesystemKey, U64>, permits: seq<Permit>, at: nat)
    requires Conserved(m, permits) && at < |permits|
    ensures Conserved(Released(m, permits[at]), Without(permits, at))
    ensures permits[at].key in m && permits[at].bytes <= m[permits[at].key]
  {
    hide Held;
    var p := permits[at];
    var n, after := Released(m, p), Without(permits, at);
    AnyPermitIsCovered(permits, at);
    forall key
      ensures Entry(n, key) == Held(after, key)
    {
      HeldWithout(permits, at, key);
    }
    forall key
      ensures key in n <==> exists i :: 0 <= i < |after| && after[i].key == key
    {
      if i :| 0 <= i < |after| && after[i].key == key {
        AnyPermitIsCovered(after, i);
        assert Entry(n, key) > 0;
      }
      if key in n && key != p.key {
        var i :| 0 <= i < |permits| && permits[i].key == key;
        assert after[if i < at then i else i - 1].key == key;
      }
      if key in n && key == p.key {
        SomePermitHolds(after, key);
      }
    }
  }

  lemma {:induction false} SomePermitHolds(permits: seq<Permit>, key: FilesystemKey)
    requires Held(permits, key) > 0
    ensures exists i :: 0 <= i < |permits| && permits[i].key == key
  {
    if permits[0].key != key {
      SomePermitHolds(permits[1..], key);
      var i :| 0 <= i < |permits[1..]| && permits[1..][i].key == key;
      assert permits[i + 1].key == key;
    }
  }

  lemma ReserveApplies(b: Books, key: FilesystemKey, available: U64, total: U64, payloadBytes: U64)
    ensures var required := payloadBytes + Headroom(total);
      Apply(b, ReserveOp(key, available, total, payloadBytes))
      == if Entry(b.entries, key) + required > available then b
         else Books(b.entries[key := Entry(b.entries, key) + required], b.permits + [Permit(key, required)])
  {
    hide Headroom;
  }

  class ReservationLedger {
    var reservations: map<FilesystemKey, U64>
    var poisoned: bool
    /** The permits whose bytes are still charged. */
    ghost var charged: seq<Permit>

    ghost predicate Valid()
      reads this
    {
      Conserved(reservations, charged)
    }

    ghost function Balance(): Books
      reads this
    {
      Books(reservations, charged)
    }

    constructor ()
      ensures Valid() && charged == [] && !poisoned
    {
      reservations, poisoned, charged := map[], false, [];
    }

    /** `reserve_with_capacity`: the check and the increment under one lock. */
    method Reserve(key: FilesystemKey, available: U64, total: U64, payloadBytes: U64)
      returns (r: Result<Permit, ReservationError>)
      requires Valid()
      modifies this
      ensures Valid() && poisoned == old(poisoned)
      // The checked addition to the entry cannot overflow: the only overflow is payload plus headroom.
      ensures r == Failure(Overflow) <==> payloadBytes + Headroom(total) > U64_MAX
      ensures r.Success? <==> && !poisoned
                              && Held(old(charged), key) + payloadBytes + Headroom(total) <= available
      ensures r.Success? ==> && r.value == Permit(key, payloadBytes + Headroom(total))
                             && charged == old(charged) + [r.value]
                             && Held(charged, key) <= available
      ensures r.Failure? ==> charged == old(charged) && reservations == old(reservations)
      ensures r == Failure(LedgerPoisoned) <==> poisoned && payloadBytes + Headroom(total) <= U64_MAX
      ensures r.Failure? && r.error != Overflow && r.error != LedgerPoisoned ==>
                && payloadBytes + Headroom(total) <= U64_MAX
                && r.error == InsufficientSpace(available, Entry(reservations, key), payloadBytes + Headroom(total))
      ensures !poisoned ==> Balance() == Apply(old(Balance()), ReserveOp(key, available, total, payloadBytes))
    {
      assert Entry(reservations, key) == Held(charged, key);
      ReserveApplies(Books(reservations, charged), key, available, total, payloadBytes);
      hide Conserved, Held, Headroom, GIB, Apply, Entry;
      var headroom := Headroom(total);
      var required := CheckedAdd64(payloadBytes, headroom);
      if required.None? { return Failure(Overflow); }
      if poisoned { return Failure(LedgerPoisoned); }
      var already := Entry(reservations, key);
      if SaturatingSub64(available, already) < required.value {
        return Failure(InsufficientSpace(available, already, required.value));
      }
      var next := CheckedAdd64(already, required.value);
      if next.None? { return Failure(Overflow); }
      var permit := Permit(key, required.value);
      assert permit.bytes >= 2 * GIB;
      NewPermitIsHeld(charged, permit);
      assert next.value == Entry(reservations, key) + permit.bytes;
      assert Conserved(reservations[key := next.value], charged + [permit]) by {
        ReserveConserves(reservations, charged, permit);
      }
      reservations := reservations[key := next.value];
      charged := charged + [permit];
      r := Success(permit);
    }

    /** `ReservationPermit::drop`. A poisoned lock leaves the bytes charged. */
    method Drop(permit: Permit, ghost at: nat)
      requires Valid() && at < |charged| && charged[at] == permit
      modifies this
      ensures Valid() && poisoned == old(poisoned)
      ensures charged == if poisoned then old(charged) else Without(old(charged), at)
      ensures !poisoned ==> Balance() == Apply(old(Balance()), DropOp(at))
      // The subtraction is exact: it never saturates.
      ensures !poisoned ==> && permit.bytes <= Entry(old(reservations), permit.key)
                            && Entry(reservations, permit.key) == Entry(old(reservations), permit.key) - permit.bytes
      ensures forall key :: key != permit.key ==> Entry(reservations, key) == Entry(old(reservations), key)
    {
      if poisoned { return; }
      hide Conserved, Held;
      ReleaseConserves(reservations, charged, at);
      charged := Without(charged, at);
      if permit.key in reservations {
        var value := SaturatingSub64(reservations[permit.key], permit.bytes);
        if value == 0 {
          reservations := reservations - {permit.key};
        } else {
          reservations := reservations[permit.key := value];
        }
      }
    }
  }

  // ----- every history of reserves and drops -----

  datatype Op =
    | ReserveOp(key: FilesystemKey, available: U64, total: U64, payloadBytes: U64)
    | DropOp(at: nat)

  datatype Books = Books(entries: map<FilesystemKey, U64>, permits: seq<Permit>)

  /** What one call of `Reserve` or `Drop` does to an unpoisoned ledger. */
  function Apply(b: Books, op: Op): Books {
    match op
    case ReserveOp(key, available, total, payloadBytes) =>
      var required := payloadBytes + Headroom(total);
      if Entry(b.entries, key) + required > available then b
      else Books(b.entries[key := Entry(b.entries, key) + required], b.permits + [Permit(key, required)])
    case DropOp(at) =>
      if at >= |b.permits| then b else Books(Released(b.entries, b.permits[at]), Without(b.permits, at))
  }

  function History(ops: seq<Op>): Books {
    if ops == [] then Books(map[], []) else Apply(History(ops[..|ops| - 1]), ops[|ops| - 1])
  }

  lemma ApplyConserves(b: Books, op: Op)
    requires Conserved(b.entries, b.permits)
    ensures Conserved(Apply(b, op).entries, Apply(b, op).permits)
  {
    hide Conserved, Held, Released, Without;
    match op {
      case ReserveOp(key, available, total, payloadBytes) =>
        var required := payloadBytes + Headroom(total);
        if Entry(b.entries, key) + required <= available {
          ReserveConserves(b.entries, b.permits, Permit(key, required));
        }
      case DropOp(at) =>
        if at < |b.permits| { ReleaseConserves(b.entries, b.permits, at); }
    }
  }

  lemma {:induction false} HistoryConserves(ops: seq<Op>)
    ensures Conserved(History(ops).entries, History(ops).permits)
  {
    if ops != [] {
      HistoryConserves(ops[..|ops| - 1]);
      ApplyConserves(History(ops[..|ops| - 1]), ops[|ops| - 1]);
    }
  }

  /** Whatever came before, a filesystem is never promised more than the last check found on it. */
  lemma NoOvercommit(ops: seq<Op>, op: Op)
    requires op.ReserveOp? && Apply(History(ops), op) != History(ops)
    ensures Held(Apply(History(ops), op).permits, op.key) <= op.available
  {
    HistoryConserves(ops + [op]);
    assert (ops + [op])[..|ops|] == ops;
    var after := History(ops + [op]);
    assert Entry(after.entries, op.key) == Held(after.permits, op.key);
  }
}
