/** The output sink and the in-memory audit log. */
module Adapters {
  import opened Values
  import opened RunTypes

  /** The success indexes of one run, in append order. */
  function CursorOf(store: seq<AuditEntry>, runId: string): seq<nat> {
    if store == [] then []
    else
      var e := LastOf(store);
      CursorOf(Front(store), runId) + (if e.runId == runId && e.succeeded then [e.recordIndex] else [])
  }

  lemma {:induction false} CursorMembers(store: seq<AuditEntry>, runId: string, i: nat)
    ensures i in CursorOf(store, runId) <==> exists e | e in store :: e.runId == runId && e.succeeded && e.recordIndex == i
  {
    if store != [] {
      CursorMembers(Front(store), runId, i);
      assert store == Front(store) + [LastOf(store)];
    }
  }

  lemma {:induction false} CursorAppend(a: seq<AuditEntry>, b: seq<AuditEntry>, runId: string)
    ensures CursorOf(a + b, runId) == CursorOf(a, runId) + CursorOf(b, runId)
  {
    if b == [] {
      assert a + b == a;
    } else {
      assert Front(a + b) == a + Front(b) && LastOf(a + b) == LastOf(b);
      CursorAppend(a, Front(b), runId);
    }
  }

  class AuditLog {
    var store: seq<AuditEntry>

    constructor ()
      ensures store == []
    {
      store := [];
    }

    method Append(e: AuditEntry, outcome: IoOutcome)
      modifies this
      ensures store == if Lands(outcome) then old(store) + [e] else old(store)
    {
      if Lands(outcome) {
        store := store + [e];
      }
    }

    method Cursor(runId: string) returns (out: seq<nat>)
      ensures out == CursorOf(store, runId)
    {
      out := [];
      for i := 0 to |store|
        invariant out == CursorOf(store[..i], runId)
      {
        assert Front(store[..i + 1]) == store[..i];
        var entry := store[i];
        if entry.runId != runId {
          continue;
        }
        if !entry.succeeded {
          continue;
        }
        out := out + [entry.recordIndex];
      }
      assert store[..|store|] == store;
    }
  }

  class OutputSink {
    var writes: seq<Write>

    constructor ()
      ensures writes == []
    {
      writes := [];
    }

    method Persist(w: Write, outcome: IoOutcome)
      modifies this
      ensures writes == if Lands(outcome) then old(writes) + [w] else old(writes)
    {
      if Lands(outcome) {
        writes := writes + [w];
      }
    }
  }
}
