/**
 * What the read handlers of controllers/categoryController.ts return: each
 * matching record with its `children` replaced, three levels deep, by the
 * records they name (three nested `$lookup` stages); below the third level the
 * child lists stay as ids.
 */
module CategoryViews {
  import opened Wrappers
  import opened CategoryModel

  /**
   * A record as a lookup returns it. `$lookup` yields each record of the
   * collection whose id is listed once, in collection order, so the looked-up
   * children are keyed by id; a listed id with no record drops out.
   */
  datatype Tree = Tree(id: Id, record: Category, kids: Kids)

  datatype Kids =
    | Unexpanded(ids: seq<Id>)
    | Expanded(trees: map<Id, Tree>)

  /** The number of nested `$lookup` stages each read handler uses. */
  const LookupDepth: nat := 3

  /** The record `id` with `depth` levels of children looked up. */
  function Expand(db: map<Id, Category>, id: Id, depth: nat): (t: Tree)
    requires id in db
    ensures t.id == id && t.record == db[id]
    decreases depth
  {
    Tree(id, db[id],
         if depth == 0 then Unexpanded(db[id].children)
         else Expanded(map c | c in db[id].children && c in db :: Expand(db, c, depth - 1)))
  }

  /**
   * `t` shows the stored record `t.id` with exactly `depth` looked-up levels:
   * at each level the looked-up children are exactly the listed ids that name a
   * record, each shown as stored, and the last level keeps its raw id list.
   */
  ghost predicate Shaped(db: map<Id, Category>, t: Tree, depth: nat)
    decreases depth
  {
    && t.id in db && t.record == db[t.id]
    && (if depth == 0 then t.kids == Unexpanded(t.record.children)
        else
          && t.kids.Expanded?
          && (forall c :: c in t.kids.trees <==> c in t.record.children && c in db)
          && (forall c :: c in t.kids.trees ==> t.kids.trees[c].id == c && Shaped(db, t.kids.trees[c], depth - 1)))
  }

  lemma {:induction false} ExpandShaped(db: map<Id, Category>, id: Id, depth: nat)
    requires id in db
    ensures Shaped(db, Expand(db, id, depth), depth)
    decreases depth
  {
    if depth > 0 {
      var kids := map c | c in db[id].children && c in db :: Expand(db, c, depth - 1);
      assert Expand(db, id, depth).kids == Expanded(kids);
      forall c | c in kids ensures kids[c].id == c && Shaped(db, kids[c], depth - 1) {
        ExpandShaped(db, c, depth - 1);
      }
    }
  }

  /**
   * When parents and child lists agree, the looked-up children of a record are
   * exactly the records whose `parentId` names it.
   */
  lemma ExpandedKidsAreChildren(db: map<Id, Category>, id: Id, depth: nat)
    requires Consistent(db) && id in db && depth > 0
    ensures forall c :: c in db && db[c].parentId == id <==> c in Expand(db, id, depth).kids.trees
  {
    ExpandShaped(db, id, depth);
    assert ChildrenPointBack(db, id);
    forall c | c in db && db[c].parentId == id ensures c in db[id].children {
      assert LinkedToParent(db, c);
      assert multiset(db[id].children)[c] == 1;
    }
  }

  /** The records the `$match` selects, each with its children looked up. */
  function Views(db: map<Id, Category>, selected: Id -> bool): (r: set<Tree>)
    ensures forall t :: t in r ==> Shaped(db, t, LookupDepth) && selected(t.id)
    ensures forall k :: k in db && selected(k) ==> Expand(db, k, LookupDepth) in r
  {
    var r := set k | k in db && selected(k) :: Expand(db, k, LookupDepth);
    assert forall t :: t in r ==> Shaped(db, t, LookupDepth) && selected(t.id) by {
      forall t | t in r ensures Shaped(db, t, LookupDepth) && selected(t.id) {
        var k :| k in db && selected(k) && t == Expand(db, k, LookupDepth);
        ExpandShaped(db, k, LookupDepth);
      }
    }
    r
  }
}
