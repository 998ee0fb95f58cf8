/**
 * The in-memory history source of the core module: an insertion-ordered map
 * from id to record, so saving upserts by id.
 */
module HistorySources {
  import opened HistoryRecords

  /** The position of the first record with id `id`; |h| when there is none. */
  function IndexOf(h: seq<HistoryRecord>, id: string): (k: nat)
    ensures k <= |h|
    ensures k < |h| ==> h[k].id == id
    ensures forall j :: 0 <= j < k ==> h[j].id != id
  {
    if h == [] then 0
    else if h[0].id == id then 0
    else 1 + IndexOf(h[1..], id)
  }

  /**
   * The ledger after `put(r.id, r)`: a record whose id is present takes the
   * place of the old one, any other record goes to the end.
   */
  function Upsert(h: seq<HistoryRecord>, r: HistoryRecord): (u: seq<HistoryRecord>)
    ensures |u| == |h| || |u| == |h| + 1
  {
    var k := IndexOf(h, r.id);
    if k < |h| then h[k := r] else h + [r]
  }

  /** The ledger after saving the records `ws`, in order. */
  function SaveAll(h: seq<HistoryRecord>, ws: seq<HistoryRecord>): (g: seq<HistoryRecord>)
    ensures |h| <= |g| <= |h| + |ws|
    decreases |ws|
  {
    if ws == [] then h else Upsert(SaveAll(h, ws[..|ws| - 1]), ws[|ws| - 1])
  }

  /** Saving `ws + [w]` is saving `ws`, then `w`. */
  lemma SaveAllLast(h: seq<HistoryRecord>, ws: seq<HistoryRecord>, w: HistoryRecord)
    ensures SaveAll(h, ws + [w]) == Upsert(SaveAll(h, ws), w)
  {
    assert (ws + [w])[..|ws|] == ws;
  }

  /** A record with a new id is appended at the end. */
  lemma UpsertNewId(h: seq<HistoryRecord>, r: HistoryRecord)
    requires r.id !in IdsOf(h)
    ensures Upsert(h, r) == h + [r]
  {
    assert forall i :: 0 <= i < |h| ==> IdsOf(h)[i] == h[i].id;
  }

  /** A record with a present id replaces the old one in place; nothing else changes. */
  lemma UpsertExistingId(h: seq<HistoryRecord>, r: HistoryRecord, k: nat)
    requires DistinctIds(h) && k < |h| && h[k].id == r.id
    ensures Upsert(h, r) == h[k := r]
  {
  }

  /** The ledger grows by one record exactly when the id is new. */
  lemma UpsertSize(h: seq<HistoryRecord>, r: HistoryRecord)
    ensures |Upsert(h, r)| == if r.id in IdsOf(h) then |h| else |h| + 1
  {
    if r.id in IdsOf(h) {
      var i :| 0 <= i < |h| && IdsOf(h)[i] == r.id;
      assert IndexOf(h, r.id) <= i;
    } else {
      UpsertNewId(h, r);
    }
  }

  /** Upserting never introduces a second record with the same id. */
  lemma UpsertKeepsIdsDistinct(h: seq<HistoryRecord>, r: HistoryRecord)
    requires DistinctIds(h)
    ensures DistinctIds(Upsert(h, r))
  {
    var k := IndexOf(h, r.id);
    if k == |h| {
      var h' := h + [r];
      forall i, j | 0 <= i < j < |h'| ensures h'[i].id != h'[j].id {
        if j == |h| {
          assert h'[i] == h[i];
        }
      }
    }
  }

  /** Saving records whose ids are all new appends them in order. */
  lemma {:induction false} SaveAllFresh(h: seq<HistoryRecord>, ws: seq<HistoryRecord>)
    requires DistinctIds(ws)
    requires forall i :: 0 <= i < |ws| ==> ws[i].id !in IdsOf(h)
    ensures SaveAll(h, ws) == h + ws
    decreases |ws|
  {
    if ws != [] {
      var n := |ws| - 1;
      var front := ws[..n];
      assert DistinctIds(front) by {
        forall i, j | 0 <= i < j < |front| ensures front[i].id != front[j].id {
          assert front[i] == ws[i] && front[j] == ws[j];
        }
      }
      SaveAllFresh(h, front);
      assert ws[n].id !in IdsOf(h + front) by {
        forall i | 0 <= i < |h + front| ensures (h + front)[i].id != ws[n].id {
          if i < |h| {
            assert IdsOf(h)[i] == h[i].id;
          } else {
            assert (h + front)[i] == ws[i - |h|];
          }
        }
      }
      UpsertNewId(h + front, ws[n]);
      assert front + [ws[n]] == ws;
    }
  }

  /** Saving `[w] + ws` is saving `w`, then `ws`. */
  lemma {:induction false} SaveAllFirst(h: seq<HistoryRecord>, w: HistoryRecord, ws: seq<HistoryRecord>)
    ensures SaveAll(h, [w] + ws) == SaveAll(Upsert(h, w), ws)
    decreases |ws|
  {
    if ws == [] {
      assert ([w] + ws)[..0] == [];
    } else {
      var n := |ws| - 1;
      SaveAllFirst(h, w, ws[..n]);
      assert ([w] + ws)[..|[w] + ws| - 1] == [w] + ws[..n];
    }
  }

  /** Saving `a + b` is saving `a`, then `b`. */
  lemma {:induction false} SaveAllConcat(h: seq<HistoryRecord>, a: seq<HistoryRecord>, b: seq<HistoryRecord>)
    ensures SaveAll(h, a + b) == SaveAll(SaveAll(h, a), b)
    decreases |b|
  {
    if b == [] {
      assert a + b == a;
    } else {
      var n := |b| - 1;
      SaveAllConcat(h, a, b[..n]);
      assert (a + b)[..|a + b| - 1] == a + b[..n];
      assert (a + b)[|a + b| - 1] == b[n];
    }
  }

  /**
   * Saving records whose ids are all present, on a ledger without duplicate
   * ids, replaces each matching entry in place and leaves the others alone.
   */
  lemma {:induction false} SaveAllExisting(h: seq<HistoryRecord>, ws: seq<HistoryRecord>)
    requires DistinctIds(h) && DistinctIds(ws)
    requires forall j :: 0 <= j < |ws| ==> ws[j].id in IdsOf(h)
    ensures IdsOf(SaveAll(h, ws)) == IdsOf(h)
    ensures forall i, j :: 0 <= i < |h| && 0 <= j < |ws| && ws[j].id == h[i].id ==> SaveAll(h, ws)[i] == ws[j]
    ensures forall i :: 0 <= i < |h| && h[i].id !in IdsOf(ws) ==> SaveAll(h, ws)[i] == h[i]
    decreases |ws|
  {
    if ws != [] {
      var n := |ws| - 1;
      var front, w := ws[..n], ws[n];
      ExistingFront(h, ws, front);
      SaveAllExisting(h, front);
      var g := SaveAll(h, front);
      var k := ExistingPosition(h, g, w);
      UpsertExistingId(g, w, k);
      ExistingStep(h, front, w, g, k);
    }
  }

  /** All but the last of records with distinct present ids again have distinct present ids. */
  lemma ExistingFront(h: seq<HistoryRecord>, ws: seq<HistoryRecord>, front: seq<HistoryRecord>)
    requires ws != [] && front == ws[..|ws| - 1] && DistinctIds(ws)
    requires forall j :: 0 <= j < |ws| ==> ws[j].id in IdsOf(h)
    ensures DistinctIds(front)
    ensures forall j :: 0 <= j < |front| ==> front[j].id in IdsOf(h)
    ensures ws[|ws| - 1].id in IdsOf(h)
    ensures ws == front + [ws[|ws| - 1]]
  {
    forall i, j | 0 <= i < j < |front| ensures front[i].id != front[j].id {
      assert front[i] == ws[i] && front[j] == ws[j];
    }
    forall j | 0 <= j < |front| ensures front[j].id in IdsOf(h) {
      assert front[j] == ws[j];
    }
  }

  /** A present id sits at one position, in a ledger with the same ids, which has no duplicates either. */
  lemma ExistingPosition(h: seq<HistoryRecord>, g: seq<HistoryRecord>, w: HistoryRecord) returns (k: nat)
    requires DistinctIds(h) && IdsOf(g) == IdsOf(h) && w.id in IdsOf(h)
    ensures |g| == |h| && DistinctIds(g)
    ensures k < |h| && h[k].id == w.id && g[k].id == w.id
  {
    k :| 0 <= k < |h| && IdsOf(h)[k] == w.id;
    assert |IdsOf(g)| == |IdsOf(h)|;
    assert IdsOf(g)[k] == g[k].id;
    forall i, j | 0 <= i < j < |g| ensures g[i].id != g[j].id {
      assert IdsOf(g)[i] == g[i].id && IdsOf(g)[j] == g[j].id;
      assert IdsOf(h)[i] == h[i].id && IdsOf(h)[j] == h[j].id;
    }
  }

  /** The induction step of `SaveAllExisting`: one more record, whose id sits at position k. */
  lemma ExistingStep(h: seq<HistoryRecord>, front: seq<HistoryRecord>, w: HistoryRecord, g: seq<HistoryRecord>, k: nat)
    requires DistinctIds(h) && DistinctIds(front + [w])
    requires |g| == |h| && IdsOf(g) == IdsOf(h)
    requires k < |h| && h[k].id == w.id && g[k].id == w.id
    requires forall i, j :: 0 <= i < |h| && 0 <= j < |front| && front[j].id == h[i].id ==> g[i] == front[j]
    requires forall i :: 0 <= i < |h| && h[i].id !in IdsOf(front) ==> g[i] == h[i]
    ensures IdsOf(g[k := w]) == IdsOf(h)
    ensures forall i, j :: 0 <= i < |h| && 0 <= j < |front + [w]| && (front + [w])[j].id == h[i].id ==> g[k := w][i] == (front + [w])[j]
    ensures forall i :: 0 <= i < |h| && h[i].id !in IdsOf(front + [w]) ==> g[k := w][i] == h[i]
  {
    var ws := front + [w];
    var n := |front|;
    assert IdsOf(g[k := w]) == IdsOf(g) by {
      assert forall i :: 0 <= i < |g| ==> IdsOf(g[k := w])[i] == IdsOf(g)[i];
    }
    forall i, j | 0 <= i < |h| && 0 <= j < |ws| && ws[j].id == h[i].id
      ensures g[k := w][i] == ws[j]
    {
      if j == n {
        assert h[i].id == h[k].id;
      } else {
        assert ws[j] == front[j];
        assert ws[j].id != ws[n].id;
        assert i != k;
      }
    }
    forall i | 0 <= i < |h| && h[i].id !in IdsOf(ws)
      ensures g[k := w][i] == h[i]
    {
      assert IdsOf(ws)[n] == w.id;
      assert i != k;
      assert h[i].id !in IdsOf(front) by {
        forall j | 0 <= j < |front| ensures IdsOf(front)[j] != h[i].id {
          assert IdsOf(ws)[j] == front[j].id;
        }
      }
    }
  }

  /** The values of an insertion-ordered map, in insertion order. */
  function ValuesOf(keys: seq<string>, entries: map<string, HistoryRecord>): (vs: seq<HistoryRecord>)
    requires forall k :: k in keys ==> k in entries
    ensures |vs| == |keys|
    ensures forall i :: 0 <= i < |keys| ==> vs[i] == entries[keys[i]]
  {
    if keys == [] then []
    else ValuesOf(keys[..|keys| - 1], entries) + [entries[keys[|keys| - 1]]]
  }

  /** The map invariant of an insertion-ordered map keyed by record id. */
  ghost predicate OrderedMap(keys: seq<string>, entries: map<string, HistoryRecord>)
  {
    && (forall i, j :: 0 <= i < j < |keys| ==> keys[i] != keys[j])
    && (forall k :: k in keys <==> k in entries)
    && (forall k :: k in entries ==> entries[k].id == k)
  }

  /** `put` of a present key keeps the key order and upserts in place. */
  lemma PutExisting(keys: seq<string>, entries: map<string, HistoryRecord>, r: HistoryRecord, k: nat)
    requires OrderedMap(keys, entries) && k < |keys| && keys[k] == r.id
    ensures OrderedMap(keys, entries[r.id := r])
    ensures ValuesOf(keys, entries[r.id := r]) == Upsert(ValuesOf(keys, entries), r)
  {
    ValuesDistinct(keys, entries);
    UpsertExistingId(ValuesOf(keys, entries), r, k);
    ExistingKeyReplaced(keys, entries, r, k);
    ExistingKeyKeepsMap(keys, entries, r);
  }

  /** The values of an insertion-ordered map are its keys' records, so their ids are distinct. */
  lemma ValuesDistinct(keys: seq<string>, entries: map<string, HistoryRecord>)
    requires OrderedMap(keys, entries)
    ensures IdsOf(ValuesOf(keys, entries)) == keys
    ensures DistinctIds(ValuesOf(keys, entries))
  {
  }

  /** Remapping a present key to a record with that id keeps the map invariant. */
  lemma ExistingKeyKeepsMap(keys: seq<string>, entries: map<string, HistoryRecord>, r: HistoryRecord)
    requires OrderedMap(keys, entries) && r.id in keys
    ensures OrderedMap(keys, entries[r.id := r])
  {
  }

  /** Remapping a present key changes its value and no other. */
  lemma ExistingKeyReplaced(keys: seq<string>, entries: map<string, HistoryRecord>, r: HistoryRecord, k: nat)
    requires OrderedMap(keys, entries) && k < |keys| && keys[k] == r.id
    ensures ValuesOf(keys, entries[r.id := r]) == ValuesOf(keys, entries)[k := r]
  {
    var before, after := ValuesOf(keys, entries), ValuesOf(keys, entries[r.id := r]);
    forall i | 0 <= i < |keys| ensures after[i] == before[k := r][i] {
      if i != k {
        assert keys[i] != r.id;
      }
    }
  }

  /** `put` of a new key appends it to the key order. */
  lemma PutNew(keys: seq<string>, entries: map<string, HistoryRecord>, r: HistoryRecord)
    requires OrderedMap(keys, entries) && r.id !in entries
    ensures OrderedMap(keys + [r.id], entries[r.id := r])
    ensures ValuesOf(keys + [r.id], entries[r.id := r]) == Upsert(ValuesOf(keys, entries), r)
  {
    NewKeyKeepsMap(keys, entries, r);
    NewKeyAppended(keys, entries, r);
  }

  /** Appending a new key and mapping it keeps the map invariant. */
  lemma NewKeyKeepsMap(keys: seq<string>, entries: map<string, HistoryRecord>, r: HistoryRecord)
    requires OrderedMap(keys, entries) && r.id !in entries
    ensures OrderedMap(keys + [r.id], entries[r.id := r])
  {
    var ks := keys + [r.id];
    forall i, j | 0 <= i < j < |ks| ensures ks[i] != ks[j] {
      if j == |keys| {
        assert ks[i] == keys[i] && keys[i] in entries;
      } else {
        assert ks[i] == keys[i] && ks[j] == keys[j];
      }
    }
  }

  /** The values after `put` of a new key are the old values with the record appended. */
  lemma NewKeyAppended(keys: seq<string>, entries: map<string, HistoryRecord>, r: HistoryRecord)
    requires OrderedMap(keys, entries) && r.id !in entries
    ensures ValuesOf(keys + [r.id], entries[r.id := r]) == Upsert(ValuesOf(keys, entries), r)
  {
    var h := ValuesOf(keys, entries);
    OtherKeysUnchanged(keys, entries, r);
    assert (keys + [r.id])[..|keys|] == keys;
    assert r.id !in IdsOf(h) by {
      forall i | 0 <= i < |h| ensures IdsOf(h)[i] != r.id {
        assert h[i].id == keys[i];
      }
    }
    UpsertNewId(h, r);
  }

  /** Adding a key that is not in the order leaves the values of the order alone. */
  lemma OtherKeysUnchanged(keys: seq<string>, entries: map<string, HistoryRecord>, r: HistoryRecord)
    requires forall k :: k in keys ==> k in entries
    requires r.id !in keys
    ensures ValuesOf(keys, entries[r.id := r]) == ValuesOf(keys, entries)
  {
    var before, after := ValuesOf(keys, entries), ValuesOf(keys, entries[r.id := r]);
    forall i | 0 <= i < |keys| ensures after[i] == before[i] {
      assert keys[i] != r.id;
    }
  }

  /**
   * The source keeps a `LinkedHashMap`: `keys` is its insertion order and
   * `entries` its id-to-record mapping. The ghost `history` is the list
   * `getHistory` returns.
   */
  class InMemoryHistorySource {
    var keys: seq<string>
    var entries: map<string, HistoryRecord>
    ghost var history: seq<HistoryRecord>

    ghost predicate Valid()
      reads this
    {
      OrderedMap(keys, entries) && history == ValuesOf(keys, entries)
    }

    /** The ledger never holds two records with the same id. */
    lemma IdsAreDistinct()
      requires Valid()
      ensures IdsOf(history) == keys
      ensures DistinctIds(history)
    {
      ValuesDistinct(keys, entries);
    }

    constructor ()
      ensures Valid() && history == []
    {
      keys := [];
      entries := map[];
      history := [];
    }

    /** `getHistory`: a fresh copy of the records, in insertion order. */
    method GetHistory() returns (h: seq<HistoryRecord>)
      requires Valid()
      ensures h == history
    {
      h := [];
      for i := 0 to |keys|
        invariant h == ValuesOf(keys[..i], entries)
      {
        assert keys[..i + 1][..i] == keys[..i];
        h := h + [entries[keys[i]]];
      }
      assert keys[..|keys|] == keys;
    }

    /** `saveRecord`: `put(r.id, r)`. */
    method SaveRecord(r: HistoryRecord)
      requires Valid()
      modifies this
      ensures Valid()
      ensures history == Upsert(old(history), r)
    {
      if r.id in entries {
        ghost var k :| 0 <= k < |keys| && keys[k] == r.id;
        PutExisting(keys, entries, r, k);
        entries := entries[r.id := r];
      } else {
        PutNew(keys, entries, r);
        keys := keys + [r.id];
        entries := entries[r.id := r];
      }
      history := Upsert(history, r);
    }
  }
}
