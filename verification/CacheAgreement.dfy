/** Runs of operations over many slots, and the proof that the paged pool shows the same keys and values as contiguous
    caches. */
module CacheAgreement {
  import opened ContiguousCaches
  import opened PageContents

  /** One operation on one tensor. `blank` is what a newly allocated contiguous cache happens to hold. */
  datatype Op<T> =
    | Register(slot: nat, blank: seq<seq<T>>)
    | Write(slot: nat, entries: seq<seq<T>>, length: nat, prefix: nat)
    | Reorder(slot: nat, hypo: seq<nat>)
    | Drop(slot: nat)

  /** What callers keep to: they write to registered slots, at most one position past the last one written, reorder to
      the same number of rows, and never exceed the reserved length. */
  ghost predicate Allowed<T>(stored: Stored<T>, op: Op<T>, maxLength: nat)
  {
    match op
    case Register(slot, blank) => forall r | 0 <= r < |blank| :: |blank[r]| == maxLength
    case Write(slot, entries, length, prefix) =>
      && slot in stored && Complete(entries, |stored[slot]|, length) && length <= maxLength
      && forall r | 0 <= r < |stored[slot]| :: prefix <= |stored[slot][r]|
    case Reorder(slot, hypo) =>
      slot in stored && |hypo| == |stored[slot]| && forall j | 0 <= j < |hypo| :: hypo[j] < |stored[slot]|
    case Drop(slot) => true
  }

  /** What the pool holds after an operation. */
  ghost function StoredAfter<T>(stored: Stored<T>, op: Op<T>, maxLength: nat): Stored<T>
    requires Allowed(stored, op, maxLength)
  {
    match op
    case Register(slot, blank) => if slot in stored then stored else stored[slot := seq(|blank|, _ => [])]
    case Write(slot, entries, length, prefix) =>
      if length <= prefix then stored else stored[slot := Scattered(stored[slot], entries, prefix, length)]
    case Reorder(slot, hypo) => stored[slot := Permuted(stored[slot], hypo)]
    case Drop(slot) => stored - {slot}
  }

  /** What the contiguous caches of all slots hold after an operation. */
  ghost function CachesAfter<T>(caches: Stored<T>, op: Op<T>): Stored<T>
    requires op.Write? && op.prefix < op.length ==>
               op.slot in caches && |op.entries| == |caches[op.slot]|
               && forall r | 0 <= r < |op.entries| :: op.length <= |op.entries[r]| && op.length <= |caches[op.slot][r]|
    requires op.Reorder? ==> op.slot in caches && forall j | 0 <= j < |op.hypo| :: op.hypo[j] < |caches[op.slot]|
  {
    match op
    case Register(slot, blank) => if slot in caches then caches else caches[slot := blank]
    case Write(slot, entries, length, prefix) =>
      if length <= prefix then caches else caches[slot := RowsAssigned(caches[slot], entries, prefix, length)]
    case Reorder(slot, hypo) => caches[slot := Permuted(caches[slot], hypo)]
    case Drop(slot) => caches - {slot}
  }

  /** Up to its high-water mark every stored row is what the contiguous cache holds. */
  ghost predicate Agree<T>(stored: Stored<T>, caches: Stored<T>, maxLength: nat)
  {
    && stored.Keys == caches.Keys
    && forall s | s in stored :: SlotAgrees(stored[s], caches[s], maxLength)
  }

  ghost predicate SlotAgrees<T>(rows: seq<seq<T>>, cache: seq<seq<T>>, maxLength: nat)
  {
    |rows| == |cache| && forall r | 0 <= r < |rows| :: rows[r] <= cache[r] && |cache[r]| == maxLength
  }

  lemma WritesAgree<T>(row: seq<T>, cache: seq<T>, entries: seq<T>, from: nat, to: nat)
    requires row <= cache && from <= |row| && from <= to <= |entries| && to <= |cache|
    ensures AfterWrite(row, entries, from, to) <= RowAssigned(cache, entries, from, to)
  {
    AfterWriteOverlays(row, entries, from, to);
  }

  lemma WriteKeepsAgreement<T>(rows: seq<seq<T>>, cache: seq<seq<T>>, entries: seq<seq<T>>, from: nat, to: nat,
                               maxLength: nat)
    requires SlotAgrees(rows, cache, maxLength) && from <= to <= maxLength && Complete(entries, |rows|, to)
    requires forall r | 0 <= r < |rows| :: from <= |rows[r]|
    ensures SlotAgrees(Scattered(rows, entries, from, to), RowsAssigned(cache, entries, from, to), maxLength)
  {
    forall r | 0 <= r < |rows|
      ensures AfterWrite(rows[r], entries[r], from, to) <= RowAssigned(cache[r], entries[r], from, to)
    {
      WritesAgree(rows[r], cache[r], entries[r], from, to);
    }
  }

  lemma ReorderKeepsAgreement<T>(rows: seq<seq<T>>, cache: seq<seq<T>>, hypo: seq<nat>, maxLength: nat)
    requires SlotAgrees(rows, cache, maxLength) && forall j | 0 <= j < |hypo| :: hypo[j] < |rows|
    ensures SlotAgrees(Permuted(rows, hypo), Permuted(cache, hypo), maxLength)
  {
  }

  lemma StepAgrees<T>(stored: Stored<T>, caches: Stored<T>, op: Op<T>, maxLength: nat)
    requires Agree(stored, caches, maxLength) && Allowed(stored, op, maxLength)
    ensures op.Write? || op.Reorder? ==> op.slot in caches && SlotAgrees(stored[op.slot], caches[op.slot], maxLength)
    ensures Agree(StoredAfter(stored, op, maxLength), CachesAfter(caches, op), maxLength)
  {
    assert op.Write? || op.Reorder? ==> SlotAgrees(stored[op.slot], caches[op.slot], maxLength);
    if op.Write? && op.prefix < op.length {
      WriteKeepsAgreement(stored[op.slot], caches[op.slot], op.entries, op.prefix, op.length, maxLength);
    }
    if op.Reorder? {
      ReorderKeepsAgreement(stored[op.slot], caches[op.slot], op.hypo, maxLength);
    }
  }

  ghost function StoredRun<T>(ops: seq<Op<T>>, maxLength: nat): Stored<T>
  {
    if |ops| == 0 then map[]
    else
      var before, op := StoredRun(ops[..|ops| - 1], maxLength), ops[|ops| - 1];
      if Allowed(before, op, maxLength) then StoredAfter(before, op, maxLength) else before
  }

  ghost predicate AllowedRun<T>(ops: seq<Op<T>>, maxLength: nat)
  {
    |ops| > 0 ==> AllowedRun(ops[..|ops| - 1], maxLength)
                  && Allowed(StoredRun(ops[..|ops| - 1], maxLength), ops[|ops| - 1], maxLength)
  }

  lemma RegisteredAgrees<T>(op: Op<T>, maxLength: nat)
    requires op.Register? && Allowed(map[], op, maxLength)
    ensures op.slot in StoredAfter(map[], op, maxLength)
    ensures SlotAgrees(StoredAfter(map[], op, maxLength)[op.slot], op.blank, maxLength)
  {
  }

  lemma OtherSlotStays<T>(stored: Stored<T>, op: Op<T>, maxLength: nat, slot: int)
    requires Allowed(stored, op, maxLength) && slot in stored && op.slot != slot
    ensures slot in StoredAfter(stored, op, maxLength) && StoredAfter(stored, op, maxLength)[slot] == stored[slot]
  {
  }

  /** The contiguous caches after a run, which agree with what the pool holds. */
  ghost function CacheRun<T>(ops: seq<Op<T>>, maxLength: nat): (caches: Stored<T>)
    requires AllowedRun(ops, maxLength)
    ensures Agree(StoredRun(ops, maxLength), caches, maxLength)
  {
    if |ops| == 0 then map[]
    else
      var before, op := CacheRun(ops[..|ops| - 1], maxLength), ops[|ops| - 1];
      StepAgrees(StoredRun(ops[..|ops| - 1], maxLength), before, op, maxLength);
      CachesAfter(before, op)
  }
}
