/**
 * The parent/child links that the write handlers of
 * controllers/categoryController.ts maintain between a record's `parentId` and
 * its parent's `children`: the store changes each handler makes on its success
 * paths, and proofs that they keep `Consistent`, together with the one failure
 * path that breaks it.
 */
module CategoryLinks {
  import opened Wrappers
  import opened CategoryModel

  /** No record is named "0" or "" (the store only hands out longer ids). */
  predicate LongIds(db: map<Id, Category>)
  {
    forall k :: k in db ==> |k| > 1
  }

  /** The parent value a new record may carry: a record, or a top-level value. */
  predicate ParentAcceptable(db: map<Id, Category>, p: string)
  {
    p in db || p == Root || p == ""
  }

  /** Inserting `c` under `id`, then pushing `id` onto its parent's children if that parent exists. */
  function Attach(db: map<Id, Category>, id: Id, c: Category): (r: map<Id, Category>)
    ensures r.Keys == db.Keys + {id}
  {
    var inserted := db[id := c];
    if c.parentId in db then Pushed(inserted, c.parentId, id) else inserted
  }

  /** `Attach` for each created record in turn. */
  function AttachAll(db: map<Id, Category>, made: seq<(Id, Category)>): (r: map<Id, Category>)
    ensures forall k :: k in r <==> k in db || k in Firsts(made)
  {
    if |made| == 0 then db
    else
      var front := made[..|made| - 1];
      var last := made[|made| - 1];
      assert Firsts(made) == Firsts(front) + [last.0];
      Attach(AttachAll(db, front), last.0, last.1)
  }

  /** One more created record attaches on top of the batch before it. */
  lemma AttachAllSnoc(db: map<Id, Category>, made: seq<(Id, Category)>, next: (Id, Category))
    ensures AttachAll(db, made + [next]) == Attach(AttachAll(db, made), next.0, next.1)
  {
    assert (made + [next])[..|made|] == made;
  }

  /** Deleting the leaf `id`, after pulling it from its parent when the parent value is longer than one character. */
  function DetachLeaf(db: map<Id, Category>, id: Id): (r: map<Id, Category>)
    requires id in db
    ensures r.Keys == db.Keys - {id}
  {
    var p := db[id].parentId;
    (if p != "" && |p| > 1 then Pulled(db, p, id) else db) - {id}
  }

  /** Moving `id` under `np`: pull from the old parent, push onto the new one if absent, set `parentId`. */
  function Reparent(db: map<Id, Category>, id: Id, np: Id): (r: map<Id, Category>)
    requires id in db && np in db
    ensures r.Keys == db.Keys && r[id].parentId == np
  {
    var p := db[id].parentId;
    var pulled := if p != "" && p != Root then Pulled(db, p, id) else db;
    var pushed := if id !in pulled[np].children then Pushed(pulled, np, id) else pulled;
    pushed[id := pushed[id].(parentId := np)]
  }

  /** Making `id` top-level: pull it from its parent if it has one, then set `parentId` to "0". */
  function Unparent(db: map<Id, Category>, id: Id): (r: map<Id, Category>)
    requires id in db
    ensures r.Keys == db.Keys && r[id].parentId == Root
  {
    var p := db[id].parentId;
    var pulled := if p != "" then Pulled(db, p, id) else db;
    pulled[id := pulled[id].(parentId := Root)]
  }

  /** The pulls of a batch delete: each found record with a truthy parent value, from that parent. */
  function BatchPulls(found: map<Id, Category>): set<(Id, Id)>
  {
    set k | k in found && found[k].parentId != "" :: (found[k].parentId, k)
  }

  /** The records whose id is in `ids`. */
  function FoundIn(db: map<Id, Category>, ids: set<Id>): map<Id, Category>
  {
    map k | k in db && k in ids :: db[k]
  }

  /** The batch delete of `ids`: the pulls in one bulk write, then the deletion. */
  function DetachMany(db: map<Id, Category>, ids: set<Id>): (r: map<Id, Category>)
    ensures r.Keys == db.Keys - ids
  {
    PulledAll(db, BatchPulls(FoundIn(db, ids))) - ids
  }

  lemma {:induction false} RemoveNothing(s: seq<Id>)
    ensures RemoveEvery(s, {}) == s
  {
    if |s| > 0 {
      RemoveNothing(s[1..]);
      assert s == [s[0]] + s[1..];
    }
  }

  /** A bulk write with no pulls changes nothing. */
  lemma PulledNothing(db: map<Id, Category>)
    ensures PulledAll(db, {}) == db
  {
    var r := PulledAll(db, {});
    forall k | k in db ensures r[k] == db[k] {
      assert PullsFrom({}, k) == {};
      RemoveNothing(db[k].children);
    }
    assert r.Keys == db.Keys;
  }

  // ---------------------------------------------------------------------------
  // Creation
  // ---------------------------------------------------------------------------

  lemma NotAChild(db: map<Id, Category>, id: Id, p: Id)
    requires Consistent(db) && id !in db && p in db
    ensures multiset(db[p].children)[id] == 0
  {
    assert ChildrenPointBack(db, p);
  }

  /** Creating a record with no children under an existing parent, or at top level, keeps the links. */
  lemma AttachKeepsConsistent(db: map<Id, Category>, id: Id, c: Category)
    requires Consistent(db) && LongIds(db)
    requires id !in db && |id| > 1 && c.children == [] && ParentAcceptable(db, c.parentId)
    ensures Consistent(Attach(db, id, c)) && LongIds(Attach(db, id, c))
  {
    var r := Attach(db, id, c);
    AttachShape(db, id, c);
    forall k | k in r ensures LinkedToParent(r, k) {
      AttachLinked(db, id, c, k);
    }
    forall q | q in r ensures ChildrenPointBack(r, q) {
      AttachPointsBack(db, id, c, q);
    }
  }

  /** What `Attach` does to each record. */
  lemma AttachShape(db: map<Id, Category>, id: Id, c: Category)
    requires id !in db
    ensures Attach(db, id, c)[id] == c
    ensures forall q :: q in db ==>
              Attach(db, id, c)[q] ==
                (if q == c.parentId then db[q].(children := db[q].children + [id]) else db[q])
  {
  }

  lemma AttachLinked(db: map<Id, Category>, id: Id, c: Category, k: Id)
    requires Consistent(db) && id !in db && |id| > 1 && c.children == [] && ParentAcceptable(db, c.parentId)
    requires k in Attach(db, id, c)
    ensures LinkedToParent(Attach(db, id, c), k)
  {
    AttachShape(db, id, c);
    if k == id {
      var p := c.parentId;
      if p in db {
        NotAChild(db, id, p);
        assert multiset(db[p].children + [id]) == multiset(db[p].children) + multiset{id};
      }
    } else {
      assert LinkedToParent(db, k);
    }
  }

  lemma AttachPointsBack(db: map<Id, Category>, id: Id, c: Category, q: Id)
    requires Consistent(db) && id !in db && c.children == []
    requires q in Attach(db, id, c)
    ensures ChildrenPointBack(Attach(db, id, c), q)
  {
    AttachShape(db, id, c);
    var r := Attach(db, id, c);
    if q != id {
      assert ChildrenPointBack(db, q);
      forall ch | ch in r[q].children ensures ch in r && r[ch].parentId == q {
        assert ch != id ==> ch in db[q].children;
      }
    }
  }

  /** The records a batch creates: fresh, distinct, long ids, no children, acceptable parents. */
  predicate FreshBatch(db: map<Id, Category>, made: seq<(Id, Category)>)
  {
    && (forall i :: 0 <= i < |made| ==> made[i].0 !in db && |made[i].0| > 1)
    && (forall i :: 0 <= i < |made| ==> made[i].1.children == [] && ParentAcceptable(db, made[i].1.parentId))
    && (forall i, j :: 0 <= i < j < |made| ==> made[i].0 != made[j].0)
  }

  /** A fresh, unlinked record with an acceptable parent extends a fresh batch. */
  lemma FreshBatchSnoc(db: map<Id, Category>, made: seq<(Id, Category)>, next: (Id, Category))
    requires FreshBatch(db, made)
    requires next.0 !in db && |next.0| > 1 && next.0 !in Firsts(made)
    requires next.1.children == [] && ParentAcceptable(db, next.1.parentId)
    ensures FreshBatch(db, made + [next])
  {
    var more := made + [next];
    forall i, j | 0 <= i < j < |more| ensures more[i].0 != more[j].0 {
      if j == |made| {
        assert more[i].0 == Firsts(made)[i];
      }
    }
  }

  /** Creating a batch of children, one after the other, keeps the links. */
  lemma {:induction false} AttachAllKeepsConsistent(db: map<Id, Category>, made: seq<(Id, Category)>)
    requires Consistent(db) && LongIds(db) && FreshBatch(db, made)
    ensures Consistent(AttachAll(db, made)) && LongIds(AttachAll(db, made))
  {
    if |made| > 0 {
      var front := made[..|made| - 1];
      var last := made[|made| - 1];
      assert FreshBatch(db, front) by {
        forall i | 0 <= i < |front| ensures front[i] == made[i] { }
      }
      AttachAllKeepsConsistent(db, front);
      var mid := AttachAll(db, front);
      assert last.0 !in Firsts(front) by {
        forall i | 0 <= i < |front| ensures Firsts(front)[i] != last.0 {
          assert front[i] == made[i];
        }
      }
      AttachKeepsConsistent(mid, last.0, last.1);
    }
  }

  // ---------------------------------------------------------------------------
  // Deletion
  // ---------------------------------------------------------------------------

  /** Deleting a record that has no children keeps the links. */
  lemma DetachLeafKeepsConsistent(db: map<Id, Category>, id: Id)
    requires Consistent(db) && LongIds(db) && id in db && db[id].children == []
    ensures Consistent(DetachLeaf(db, id)) && LongIds(DetachLeaf(db, id))
  {
    var r := DetachLeaf(db, id);
    DetachLeafShape(db, id);
    forall k | k in r ensures LinkedToParent(r, k) {
      DetachLeafLinked(db, id, k);
    }
    forall q | q in r ensures ChildrenPointBack(r, q) {
      DetachLeafPointsBack(db, id, q);
    }
  }

  /** What `DetachLeaf` does to each remaining record. */
  lemma DetachLeafShape(db: map<Id, Category>, id: Id)
    requires id in db
    ensures DetachLeaf(db, id).Keys == db.Keys - {id}
    ensures forall q :: q in db && q != id ==>
              DetachLeaf(db, id)[q] ==
                (var p := db[id].parentId;
                 if q == p && p != "" && |p| > 1 then db[q].(children := Remove(db[q].children, id)) else db[q])
  {
  }

  lemma DetachLeafLinked(db: map<Id, Category>, id: Id, k: Id)
    requires Consistent(db) && LongIds(db) && id in db && db[id].children == [] && k in db && k != id
    ensures LinkedToParent(DetachLeaf(db, id), k)
  {
    DetachLeafShape(db, id);
    assert LinkedToParent(db, k);
    var q := db[k].parentId;
    assert q in db ==> q != id;
  }

  lemma DetachLeafPointsBack(db: map<Id, Category>, id: Id, q: Id)
    requires Consistent(db) && LongIds(db) && id in db && db[id].children == [] && q in db && q != id
    ensures ChildrenPointBack(DetachLeaf(db, id), q)
  {
    DetachLeafShape(db, id);
    var r := DetachLeaf(db, id);
    var p := db[id].parentId;
    assert ChildrenPointBack(db, q);
    forall ch | ch in r[q].children ensures ch in r && r[ch].parentId == q {
      assert ch in db[q].children;
      assert ch == id ==> q == p && |p| > 1;
    }
  }

  /** The records of a batch delete that the bulk write pulls from `q`. */
  function Gone(db: map<Id, Category>, ids: set<Id>, q: Id): set<Id>
  {
    set k | k in db && k in ids && q != "" && db[k].parentId == q
  }

  /** What `DetachMany` does to each remaining record. */
  lemma DetachManyShape(db: map<Id, Category>, ids: set<Id>)
    ensures forall q :: q in DetachMany(db, ids) <==> q in db && q !in ids
    ensures forall q :: q in DetachMany(db, ids) ==>
              DetachMany(db, ids)[q] == db[q].(children := RemoveEvery(db[q].children, Gone(db, ids, q)))
  {
    var found := FoundIn(db, ids);
    var pulls := BatchPulls(found);
    forall q | q in db
      ensures PullsFrom(pulls, q) == Gone(db, ids, q)
    {
      forall k | k in Gone(db, ids, q) ensures k in PullsFrom(pulls, q) {
        assert (found[k].parentId, k) in pulls;
      }
    }
  }

  /** The bulk pulls and the deletion of a batch of childless records keep the links. */
  lemma DetachManyKeepsConsistent(db: map<Id, Category>, ids: set<Id>)
    requires Consistent(db) && LongIds(db)
    requires forall k :: k in db && k in ids ==> db[k].children == []
    ensures Consistent(DetachMany(db, ids)) && LongIds(DetachMany(db, ids))
  {
    DetachManyShape(db, ids);
    var r := DetachMany(db, ids);
    forall k | k in r ensures LinkedToParent(r, k) {
      DetachManyLinked(db, ids, k);
    }
    forall q | q in r ensures ChildrenPointBack(r, q) {
      DetachManyPointsBack(db, ids, q);
    }
  }

  lemma DetachManyLinked(db: map<Id, Category>, ids: set<Id>, k: Id)
    requires Consistent(db) && LongIds(db)
    requires forall k :: k in db && k in ids ==> db[k].children == []
    requires k in db && k !in ids
    ensures k in DetachMany(db, ids) && LinkedToParent(DetachMany(db, ids), k)
  {
    DetachManyShape(db, ids);
    assert LinkedToParent(db, k);
    var q := db[k].parentId;
    if q in db {
      assert k !in Gone(db, ids, q);
      assert multiset(RemoveEvery(db[q].children, Gone(db, ids, q)))[k] == multiset(db[q].children)[k];
    }
  }

  lemma DetachManyPointsBack(db: map<Id, Category>, ids: set<Id>, q: Id)
    requires Consistent(db) && LongIds(db)
    requires q in db && q !in ids
    ensures q in DetachMany(db, ids) && ChildrenPointBack(DetachMany(db, ids), q)
  {
    DetachManyShape(db, ids);
    var r := DetachMany(db, ids);
    assert ChildrenPointBack(db, q);
    forall ch | ch in r[q].children ensures ch in r && r[ch].parentId == q {
      assert ch in db[q].children && ch !in Gone(db, ids, q);
    }
  }

  // ---------------------------------------------------------------------------
  // Re-parenting
  // ---------------------------------------------------------------------------

  /** What `Reparent` does to each record. */
  lemma ReparentShape(db: map<Id, Category>, id: Id, np: Id)
    requires id in db && np in db && np != id && db[id].parentId != np
    ensures Reparent(db, id, np).Keys == db.Keys
    ensures Reparent(db, id, np)[np].children ==
              if id in db[np].children then db[np].children else db[np].children + [id]
    ensures forall q :: q in db ==>
              Reparent(db, id, np)[q].parentId == (if q == id then np else db[q].parentId)
    ensures forall q :: q in db ==>
              Reparent(db, id, np)[q].children == MovedChildren(db, id, np, q)
  {
  }

  /** The children of `q` once `id` has moved from its parent to `np`, which gains it only when it lacks it. */
  function MovedChildren(db: map<Id, Category>, id: Id, np: Id, q: Id): seq<Id>
    requires id in db && q in db
  {
    var p := db[id].parentId;
    var cs := db[q].children;
    var base := if q == p && p != "" && p != Root then Remove(cs, id) else cs;
    if q == np && id !in base then base + [id] else base
  }

  /** Moving a record under another existing record keeps the links (cycles aside). */
  lemma ReparentKeepsConsistent(db: map<Id, Category>, id: Id, np: Id)
    requires Consistent(db) && LongIds(db)
    requires id in db && np in db && np != id && db[id].parentId != np
    ensures Consistent(Reparent(db, id, np)) && LongIds(Reparent(db, id, np))
  {
    assert ChildrenPointBack(db, np);
    ReparentShape(db, id, np);
    var r := Reparent(db, id, np);
    forall k | k in r ensures LinkedToParent(r, k) {
      MovedLinked(db, id, np, k);
    }
    forall q | q in r ensures ChildrenPointBack(r, q) {
      MovedPointsBack(db, id, np, q);
    }
  }

  lemma MovedLinked(db: map<Id, Category>, id: Id, np: Id, k: Id)
    requires Consistent(db) && LongIds(db)
    requires id in db && np in db && np != id && db[id].parentId != np && k in db
    ensures id !in db[np].children
    ensures var r := Reparent(db, id, np); LinkedToParent(r, k)
  {
    assert ChildrenPointBack(db, np);
    ReparentShape(db, id, np);
    var r := Reparent(db, id, np);
    if k == id {
      assert multiset(db[np].children)[id] == 0;
      assert r[np].children == db[np].children + [id];
    } else {
      assert LinkedToParent(db, k);
      var q := db[k].parentId;
      if q in db {
        assert multiset(MovedChildren(db, id, np, q))[k] == multiset(db[q].children)[k];
      }
    }
  }

  lemma MovedPointsBack(db: map<Id, Category>, id: Id, np: Id, q: Id)
    requires Consistent(db) && LongIds(db)
    requires id in db && np in db && np != id && db[id].parentId != np && q in db
    ensures var r := Reparent(db, id, np); ChildrenPointBack(r, q)
  {
    assert ChildrenPointBack(db, np);
    ReparentShape(db, id, np);
    var r := Reparent(db, id, np);
    assert ChildrenPointBack(db, q);
    var p := db[id].parentId;
    var cs := db[q].children;
    assert r[q].children == MovedChildren(db, id, np, q);
    if q != np {
      assert id !in MovedChildren(db, id, np, q) by {
        assert id in cs ==> p == q;
      }
    }
    forall ch | ch in r[q].children ensures ch in r && r[ch].parentId == q {
      if ch != id {
        assert ch in cs;
      }
    }
  }

  /** What `Unparent` does to each record. */
  lemma UnparentShape(db: map<Id, Category>, id: Id)
    requires id in db
    ensures Unparent(db, id).Keys == db.Keys
    ensures forall q :: q in db ==>
              Unparent(db, id)[q].parentId == (if q == id then Root else db[q].parentId)
    ensures forall q :: q in db ==>
              Unparent(db, id)[q].children ==
                (if q == db[id].parentId && q != "" then Remove(db[q].children, id) else db[q].children)
  {
  }

  /** Making a record top-level keeps the links. */
  lemma UnparentKeepsConsistent(db: map<Id, Category>, id: Id)
    requires Consistent(db) && LongIds(db) && id in db
    ensures Consistent(Unparent(db, id)) && LongIds(Unparent(db, id))
  {
    UnparentShape(db, id);
    var r := Unparent(db, id);
    forall k | k in r ensures LinkedToParent(r, k) {
      UnparentLinked(db, id, k);
    }
    forall q | q in r ensures ChildrenPointBack(r, q) {
      UnparentPointsBack(db, id, q);
    }
  }

  lemma UnparentLinked(db: map<Id, Category>, id: Id, k: Id)
    requires Consistent(db) && LongIds(db) && id in db && k in db
    ensures LinkedToParent(Unparent(db, id), k)
  {
    UnparentShape(db, id);
    if k != id {
      assert LinkedToParent(db, k);
    }
  }

  lemma UnparentPointsBack(db: map<Id, Category>, id: Id, q: Id)
    requires Consistent(db) && LongIds(db) && id in db && q in db
    ensures ChildrenPointBack(Unparent(db, id), q)
  {
    UnparentShape(db, id);
    var r := Unparent(db, id);
    assert ChildrenPointBack(db, q);
    forall ch | ch in r[q].children ensures ch in r && r[ch].parentId == q {
      assert ch in db[q].children;
    }
  }

  /**
   * Replacing a record's fields but not its children keeps the links, provided
   * its parent value stays, or moves from one top-level value to another.
   */
  lemma PatchKeepsConsistent(db: map<Id, Category>, id: Id, doc: Category)
    requires Consistent(db) && id in db && doc.children == db[id].children
    requires doc.parentId == db[id].parentId
             || (db[id].parentId !in db && ParentAcceptable(map[], doc.parentId) && doc.parentId !in db)
    ensures Consistent(db[id := doc])
  {
    var r := db[id := doc];
    forall k | k in r ensures LinkedToParent(r, k) {
      assert LinkedToParent(db, k);
    }
    forall q | q in r ensures ChildrenPointBack(r, q) {
      assert ChildrenPointBack(db, q);
      forall ch | ch in r[q].children ensures ch in r && r[ch].parentId == q {
        if ch == id {
          assert db[id].parentId == q;
        }
      }
    }
  }

  /**
   * Pulling a record from its parent without changing its `parentId` (what
   * `updateCategory` leaves behind when the new parent does not exist) breaks
   * the links.
   */
  lemma OrphanBreaksConsistent(db: map<Id, Category>, id: Id)
    requires Consistent(db) && id in db && db[id].parentId in db
    ensures !Consistent(Pulled(db, db[id].parentId, id))
  {
    var r := Pulled(db, db[id].parentId, id);
    assert id !in r[db[id].parentId].children;
    assert !LinkedToParent(r, id);
  }
}
