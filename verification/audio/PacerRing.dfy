/** The pacer's ring of pending slices. */
module PacerRing {
  import opened Wrappers

  const QCAP: nat := 512

  /** A scheduled slice waiting for its completion: what it is for is stamped when it is queued. */
  datatype Job = Job(id: nat, utt: nat, epoch: nat)

  /** Room for one more, or none. */
  function Queued(q: seq<Job>, j: Job): Option<seq<Job>> {
    if |q| >= QCAP then None else Some(q + [j])
  }

  /** `count` jobs from `head` on, around the end of the slots. */
  ghost function Turn(slots: seq<Job>, head: nat, count: nat): (q: seq<Job>)
    requires |slots| == QCAP
    ensures |q| == count
  {
    seq(count, k requires 0 <= k < count => slots[Wrap(head + k)])
  }

  lemma TurnPut(slots: seq<Job>, head: nat, count: nat, j: Job)
    requires |slots| == QCAP && head < QCAP && count < QCAP
    ensures Turn(slots[Wrap(head + count) := j], head, count + 1) == Turn(slots, head, count) + [j]
  {
    var put := slots[Wrap(head + count) := j];
    forall k | 0 <= k < count + 1 ensures Turn(put, head, count + 1)[k] == (Turn(slots, head, count) + [j])[k] {
      WrapApart(head, k, count);
    }
  }

  lemma TurnTake(slots: seq<Job>, head: nat, count: nat)
    requires |slots| == QCAP && head < QCAP && 0 < count <= QCAP
    ensures Turn(slots, head, count) == [slots[head]] + Turn(slots, Wrap(head + 1), count - 1)
  {
    var rest := Turn(slots, Wrap(head + 1), count - 1);
    forall k | 0 <= k < count ensures Turn(slots, head, count)[k] == ([slots[head]] + rest)[k] {
      if k > 0 {
        WrapStep(head, k);
        assert rest[k - 1] == slots[Wrap(Wrap(head + 1) + (k - 1))];
      } else {
        assert Wrap(head + k) == head;
      }
    }
  }

  class Ring {
    const slots: array<Job>
    var head: nat
    var tail: nat
    var count: nat

    ghost predicate Valid()
      reads this
    {
      && slots.Length == QCAP && head < QCAP && tail < QCAP && count <= QCAP
      && tail == Wrap(head + count)
    }

    /** The jobs in the ring, oldest first. */
    ghost function Contents(): (q: seq<Job>)
      requires Valid()
      reads this, slots
      ensures |q| == count
    {
      Turn(slots[..], head, count)
    }

    constructor ()
      ensures Valid() && fresh(slots) && Contents() == []
    {
      slots := new Job[QCAP](_ => Job(0, 0, 0));
      head, tail, count := 0, 0, 0;
    }

    method Put(j: Job) returns (full: bool)
      requires Valid()
      modifies this, slots
      ensures Valid()
      ensures full == Queued(old(Contents()), j).None?
      ensures Contents() == if full then old(Contents()) else Queued(old(Contents()), j).value
    {
      full := count >= QCAP;
      if !full {
        TurnPut(slots[..], head, count, j);
        slots[tail] := j;
        tail := Wrap(tail + 1);
        count := count + 1;
      }
    }

    method Take() returns (j: Option<Job>)
      requires Valid()
      modifies this
      ensures Valid()
      ensures j.None? <==> old(Contents()) == []
      ensures j.Some? ==> old(Contents()) == [j.value] + Contents()
      ensures j.None? ==> Contents() == []
    {
      if count == 0 {
        return None;
      }
      TurnTake(slots[..], head, count);
      j := Some(slots[head]);
      head := Wrap(head + 1);
      count := count - 1;
    }
  }

  function Wrap(i: nat): nat { i % QCAP }

  lemma WrapStep(head: nat, k: nat)
    requires head < QCAP && 0 < k
    ensures Wrap(Wrap(head + 1) + (k - 1)) == Wrap(head + k)
  {
  }

  /** Within one turn of the ring no two positions meet. */
  lemma WrapApart(head: nat, i: nat, j: nat)
    requires head < QCAP && i < QCAP && j < QCAP
    ensures Wrap(head + i) == Wrap(head + j) <==> i == j
  {
  }
}
