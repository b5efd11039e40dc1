/**
 * The request handlers of controllers/categoryController.ts. Each write handler
 * is a method on the store that follows the handler's steps in order, including
 * the writes it has already made when a later step fails; each read handler is
 * a function of the stored records.
 */
module CategoryController {
  import opened Wrappers
  import opened AppErrors
  import opened Numbers
  import opened ApiFeatures
  import opened CategoryModel
  import opened CategoryLinks
  import opened CategoryViews

  // ---------------------------------------------------------------------------
  // Messages
  // ---------------------------------------------------------------------------

  const NoParentFound: string := "No parent found, please check parentId"
  const ChildrenNotArray: string := "Please provide an array of children to create"
  const ChildWithoutParent: string := "Please provide a parentId for each child category"
  const ParentsNotFound: string := "One or more parent categories not found. Please check the parentId values."
  const NoCategories: string := "No categories found"
  const NotFoundById: string := "Category not found with the provided ID."
  const UpdateNotFound: string := "Category not found"
  const OwnParent: string := "A category cannot be its own parent"
  const NewParentMissing: string := "Parent category not found. Provide a valid parentId."
  const DeleteNotFound: string := "Category not found,please provide valid id"
  const HasChildren: string := "This category has child categories. Please delete the children first."
  const IdsNotArray: string := "Please provide an array of category IDs to delete."
  const SomeHaveChildren: string := "Some categories have child categories. Please delete the children first."
  const NoSearchMatch: string := "No categories found matching the search criteria"

  /** A fault the handler raises itself. */
  function Refused(message: string, code: int): Fault
  {
    Rejected(New(message, code))
  }

  lemma {:induction false} SubsetSize(a: set<Id>, b: set<Id>)
    requires a <= b
    ensures |a| <= |b|
    decreases |a|
  {
    if a != {} {
      var x :| x in a;
      SubsetSize(a - {x}, b - {x});
    }
  }

  /** Of the wanted ids, as many are found as there are distinct ones exactly when all are found. */
  lemma FoundCount(records: set<Id>, wanted: set<Id>)
    ensures |records * wanted| == |wanted| <==> wanted <= records
  {
    if wanted <= records {
      assert records * wanted == wanted;
    } else {
      var x :| x in wanted && x !in records;
      assert records * wanted <= wanted - {x};
      SubsetSize(records * wanted, wanted - {x});
    }
  }

  // ---------------------------------------------------------------------------
  // createCategory
  // ---------------------------------------------------------------------------

  /** The body names a parent (a truthy `parentId`) that is not stored. */
  predicate ParentMissing(db: map<Id, Category>, body: CategoryBody)
  {
    Truthy(body.parentId) && body.parentId.value !in db
  }

  /**
   * `createCategory`: a named parent must exist; then the record is created and,
   * under a named parent, its id is pushed onto that parent's children. A
   * refused creation writes nothing. The links stay consistent.
   */
  method CreateCategory(store: CategoryStore, body: CategoryBody) returns (r: Result<(Id, Category), Fault>)
    requires store.Valid()
    modifies store
    ensures store.Valid()
    ensures ParentMissing(old(store.records), body) ==>
              r == Failure(Refused(NoParentFound, 404)) && store.records == old(store.records)
    ensures !ParentMissing(old(store.records), body) && Inserted(old(store.records), body).Failure? ==>
              r == Failure(Inserted(old(store.records), body).error) && store.records == old(store.records)
    ensures !ParentMissing(old(store.records), body) && Inserted(old(store.records), body).Success? ==>
              && r.Success? && r.value.1 == Inserted(old(store.records), body).value
              && r.value.0 !in old(store.records)
              && store.records == Attach(old(store.records), r.value.0, r.value.1)
    ensures Consistent(old(store.records)) ==> Consistent(store.records)
  {
    ghost var db := store.records;
    var parentDoc := store.FindById(body.parentId);
    if Truthy(body.parentId) && parentDoc.None? {
      return Failure(Refused(NoParentFound, 404));
    }
    r := store.Create(body);
    if r.Success? {
      if Truthy(body.parentId) {
        store.Push(body.parentId.value, r.value.0);
      }
      assert ParentAcceptable(db, r.value.1.parentId);
      if Consistent(db) {
        AttachKeepsConsistent(db, r.value.0, r.value.1);
      }
    }
  }

  // ---------------------------------------------------------------------------
  // createMultipleChildCategory
  // ---------------------------------------------------------------------------

  /** The distinct parent ids a batch names. */
  function ParentIds(bodies: seq<CategoryBody>): set<Id>
  {
    set i | 0 <= i < |bodies| && bodies[i].parentId.Some? :: bodies[i].parentId.value
  }

  /**
   * The checks `createMultipleChildCategory` makes before creating anything: the
   * batch must be an array, every entry must name a parent, and every named
   * parent must exist. `None` when all three pass.
   */
  function BatchRefusal(db: map<Id, Category>, children: Option<seq<CategoryBody>>): (r: Option<Fault>)
    ensures r.Some? ==> r.value.Rejected? && (r.value.error.statusCode == 400 || r.value.error.statusCode == 404)
    ensures r.Some? && r.value.error.statusCode == 404 ==> children.Some? && !(ParentIds(children.value) <= db.Keys)
  {
    if children.None? then Some(Refused(ChildrenNotArray, 400))
    else if exists i :: 0 <= i < |children.value| && !Truthy(children.value[i].parentId) then
      Some(Refused(ChildWithoutParent, 400))
    else if !(ParentIds(children.value) <= db.Keys) then Some(Refused(ParentsNotFound, 404))
    else None
  }

  /**
   * The batch is accepted exactly when it is an array whose every entry names a
   * stored parent; otherwise the first failing check gives the error.
   */
  lemma BatchRefusalCases(db: map<Id, Category>, children: Option<seq<CategoryBody>>)
    ensures BatchRefusal(db, children).None? <==>
              && children.Some?
              && (forall i :: 0 <= i < |children.value| ==>
                    Truthy(children.value[i].parentId) && children.value[i].parentId.value in db)
    ensures children.None? ==> BatchRefusal(db, children) == Some(Refused(ChildrenNotArray, 400))
    ensures children.Some? && (exists i :: 0 <= i < |children.value| && !Truthy(children.value[i].parentId)) ==>
              BatchRefusal(db, children) == Some(Refused(ChildWithoutParent, 400))
    ensures children.Some? && (forall i :: 0 <= i < |children.value| ==> Truthy(children.value[i].parentId))
            && (exists i :: 0 <= i < |children.value| && children.value[i].parentId.value !in db) ==>
              BatchRefusal(db, children) == Some(Refused(ParentsNotFound, 404))
  {
    if children.Some? {
      var bodies := children.value;
      if forall i :: 0 <= i < |bodies| ==> Truthy(bodies[i].parentId) {
        assert forall i :: 0 <= i < |bodies| ==> bodies[i].parentId.value in ParentIds(bodies);
        if !(ParentIds(bodies) <= db.Keys) {
          var p :| p in ParentIds(bodies) && p !in db;
          var i :| 0 <= i < |bodies| && bodies[i].parentId.Some? && bodies[i].parentId.value == p;
        }
      }
    }
  }

  /**
   * `createMultipleChildCategory`: after the checks of `BatchRefusal`, the
   * entries are created one at a time, each followed by the push onto its
   * parent; a refused entry ends the request and keeps the entries created
   * before it. `made` lists the records created, in order.
   */
  method CreateMultipleChildCategory(store: CategoryStore, children: Option<seq<CategoryBody>>)
    returns (r: Result<seq<(Id, Category)>, Fault>, ghost made: seq<(Id, Category)>)
    requires store.Valid()
    modifies store
    ensures store.Valid()
    ensures BatchRefusal(old(store.records), children).Some? ==>
              r == Failure(BatchRefusal(old(store.records), children).value) && store.records == old(store.records)
    ensures BatchRefusal(old(store.records), children).None? ==>
              Batched(old(store.records), children.value, r, made, store.records)
    ensures Consistent(old(store.records)) ==> Consistent(store.records)
  {
    made := [];
    var refusal := CheckBatch(store, children);
    if refusal.Some? {
      return Failure(refusal.value), made;
    }
    BatchRefusalCases(store.records, children);
    r, made := CreateBatch(store, children.value);
  }

  /** Once every entry names a parent, only the lookup of the parents decides. */
  lemma LastCheck(db: map<Id, Category>, children: Option<seq<CategoryBody>>)
    requires children.Some? && forall i :: 0 <= i < |children.value| ==> Truthy(children.value[i].parentId)
    ensures BatchRefusal(db, children) == if ParentIds(children.value) <= db.Keys then None
                                          else Some(Refused(ParentsNotFound, 404))
  {
  }

  /** The checks of `createMultipleChildCategory`, with the parents looked up by one `find`. */
  method CheckBatch(store: CategoryStore, children: Option<seq<CategoryBody>>) returns (refusal: Option<Fault>)
    requires store.Valid()
    ensures refusal == BatchRefusal(store.records, children)
  {
    if children.None? {
      return Some(Refused(ChildrenNotArray, 400));
    }
    if exists i :: 0 <= i < |children.value| && !Truthy(children.value[i].parentId) {
      return Some(Refused(ChildWithoutParent, 400));
    }
    LastCheck(store.records, children);
    var parentIds := ParentIds(children.value);
    var parentDocs := store.FindIn(parentIds);
    FoundCount(store.records.Keys, parentIds);
    if |parentDocs.Keys| != |parentIds| {
      return Some(Refused(ParentsNotFound, 404));
    }
    refusal := None;
  }

  /**
   * The outcome of the create loop: `made` replays the first `|made|` bodies,
   * the store holds them attached, and either every body was created, or the
   * next one was refused with the error of its insertion.
   */
  ghost predicate Batched(db: map<Id, Category>, bodies: seq<CategoryBody>, r: Result<seq<(Id, Category)>, Fault>,
                          made: seq<(Id, Category)>, after: map<Id, Category>)
  {
    && Replays(db, bodies, made)
    && after == AttachAll(db, made)
    && (r.Success? <==> |made| == |bodies|)
    && (r.Success? ==> r.value == made)
    && (r.Failure? ==> |made| < |bodies| && Inserted(after, bodies[|made|]).Failure?
                       && r.error == Inserted(after, bodies[|made|]).error)
  }

  /** The create loop of `createMultipleChildCategory`, once every parent is known to exist. */
  method CreateBatch(store: CategoryStore, bodies: seq<CategoryBody>)
    returns (r: Result<seq<(Id, Category)>, Fault>, ghost made: seq<(Id, Category)>)
    requires store.Valid()
    requires forall i :: 0 <= i < |bodies| ==> Truthy(bodies[i].parentId) && bodies[i].parentId.value in store.records
    modifies store
    ensures store.Valid()
    ensures Batched(old(store.records), bodies, r, made, store.records)
    ensures Consistent(old(store.records)) ==> Consistent(store.records)
  {
    ghost var db := store.records;
    made := [];
    var created: seq<(Id, Category)> := [];
    for i := 0 to |bodies|
      invariant store.Valid()
      invariant created == made && |made| == i
      invariant store.records == AttachAll(db, made)
      invariant FreshBatch(db, made)
      invariant Replays(db, bodies, made)
    {
      var category := CreateChild(store, bodies[i], db, made);
      if category.Failure? {
        if Consistent(db) {
          AttachAllKeepsConsistent(db, made);
        }
        return Failure(category.error), made;
      }
      ReplaysSnoc(db, bodies, made, category.value);
      made := made + [category.value];
      created := created + [category.value];
    }
    r := Success(created);
    if Consistent(db) {
      AttachAllKeepsConsistent(db, made);
    }
  }

  /**
   * `made` is what creating the first `|made|` bodies one after the other
   * produces: each body, inserted into the store as the entries before it left
   * it, yields the record made for it.
   */
  ghost predicate Replays(db: map<Id, Category>, bodies: seq<CategoryBody>, made: seq<(Id, Category)>)
    decreases |made|
  {
    && |made| <= |bodies|
    && (|made| == 0
        || var front := made[..|made| - 1];
           && Replays(db, bodies, front)
           && Inserted(AttachAll(db, front), bodies[|front|]) == Success(made[|front|].1))
  }

  lemma ReplaysSnoc(db: map<Id, Category>, bodies: seq<CategoryBody>, made: seq<(Id, Category)>,
                    next: (Id, Category))
    requires Replays(db, bodies, made) && |made| < |bodies|
    requires Inserted(AttachAll(db, made), bodies[|made|]) == Success(next.1)
    ensures Replays(db, bodies, made + [next])
  {
    assert (made + [next])[..|made|] == made;
  }

  /**
   * One entry of the batch loop: the record is created and, when that succeeds,
   * pushed onto its parent, which is stored before the batch began.
   */
  method CreateChild(store: CategoryStore, body: CategoryBody, ghost db: map<Id, Category>,
                     ghost made: seq<(Id, Category)>) returns (r: Result<(Id, Category), Fault>)
    requires store.Valid() && store.records == AttachAll(db, made) && FreshBatch(db, made)
    requires Truthy(body.parentId) && body.parentId.value in db
    modifies store
    ensures store.Valid()
    ensures r.Failure? <==> Inserted(old(store.records), body).Failure?
    ensures r.Failure? ==> r == Failure(Inserted(old(store.records), body).error) && store.records == old(store.records)
    ensures r.Success? ==>
              && Inserted(old(store.records), body) == Success(r.value.1)
              && store.records == AttachAll(db, made + [r.value])
              && FreshBatch(db, made + [r.value])
  {
    r := store.Create(body);
    if r.Success? {
      store.Push(body.parentId.value, r.value.0);
      AttachAllSnoc(db, made, r.value);
      assert r.value.0 !in Firsts(made);
      assert ParentAcceptable(db, r.value.1.parentId);
      FreshBatchSnoc(db, made, r.value);
    }
  }

  // ---------------------------------------------------------------------------
  // getCategories, getCategoryByID, searchCategory
  // ---------------------------------------------------------------------------

  /**
   * The stages `new APIFeatures(query).Filtering().paginate().fieldLimit().sorting()`
   * leaves, in call order, or the first error thrown: `fieldLimit` runs before
   * `sorting`, so an invalid `fields` is reported even when `sort` is invalid too.
   */
  function ListStages(q: Query): (r: Result<seq<Stage>, AppError>)
    ensures ProjectOutcome(q).Failure? ==> r == Failure(ProjectOutcome(q).error)
    ensures ProjectOutcome(q).Success? && SortOutcome(q).Failure? ==> r == Failure(SortOutcome(q).error)
    ensures ProjectOutcome(q).Success? && SortOutcome(q).Success? ==>
              r == Success([Match(MatchFilter(q))] + PageStages(q) + ProjectOutcome(q).value
                           + [SortOutcome(q).value])
    ensures r.Success? ==>
              && |r.value| >= 4 && r.value[0] == Match(MatchFilter(q))
              && r.value[1..3] == PageStages(q) && r.value[|r.value| - 1].Sort?
  {
    match ProjectOutcome(q)
    case Failure(e) => Failure(e)
    case Success(project) =>
      match SortOutcome(q)
      case Failure(e) => Failure(e)
      case Success(sort) => Success([Match(MatchFilter(q))] + PageStages(q) + project + [sort])
  }

  /** The feature chain of `getCategories`, run on a fresh builder. */
  method ListFeatures(q: Query) returns (r: Result<seq<Stage>, AppError>)
    ensures r == ListStages(q)
  {
    var features := new Features(q);
    features.Filtering();
    features.Paginate();
    assert features.pipeline == [Match(MatchFilter(q))] + PageStages(q);
    var thrown := features.FieldLimit();
    if thrown.Some? {
      return Failure(thrown.value);
    }
    assert features.pipeline == [Match(MatchFilter(q))] + PageStages(q) + ProjectOutcome(q).value;
    thrown := features.Sorting();
    if thrown.Some? {
      return Failure(thrown.value);
    }
    var stages := features.GetPipeline();
    assert stages == [Match(MatchFilter(q))] + PageStages(q) + ProjectOutcome(q).value + [SortOutcome(q).value];
    r := Success(stages);
  }

  predicate IsTopLevel(db: map<Id, Category>, k: Id)
  {
    k in db && db[k].parentId == Root
  }

  /**
   * `getCategories`: the top-level records with three levels of children, then
   * the feature stages. `evaluate` applies the stages to the looked-up records;
   * an empty outcome is a 404.
   */
  method GetCategories(db: map<Id, Category>, q: Query, evaluate: (set<Tree>, seq<Stage>) -> seq<Tree>)
    returns (r: Result<seq<Tree>, AppError>)
    ensures ListStages(q).Failure? ==> r == Failure(ListStages(q).error)
    ensures ListStages(q).Success? ==>
              var out := evaluate(Views(db, k => IsTopLevel(db, k)), ListStages(q).value);
              r == if out == [] then Failure(New(NoCategories, 404)) else Success(out)
  {
    var stages := ListFeatures(q);
    if stages.Failure? {
      return Failure(stages.error);
    }
    var categories := evaluate(Views(db, k => IsTopLevel(db, k)), stages.value);
    if |categories| == 0 {
      return Failure(New(NoCategories, 404));
    }
    r := Success(categories);
  }

  /**
   * `getCategoryByID`: the record with that id and three levels of children,
   * as a one-element result; a 404 when no record has that id.
   */
  function GetCategoryById(db: map<Id, Category>, id: Id): (r: Result<set<Tree>, AppError>)
    ensures r.Failure? <==> id !in db
    ensures r.Failure? ==> r.error == New(NotFoundById, 404)
    ensures r.Success? ==> |r.value| == 1 && forall t :: t in r.value ==> t.id == id && Shaped(db, t, LookupDepth)
  {
    var found := Views(db, k => k == id);
    if found == {} then Failure(New(NotFoundById, 404))
    else
      assert found == {Expand(db, id, LookupDepth)};
      Success(found)
  }

  /**
   * `searchCategory`: a key that `Number` reads as a number is refused; otherwise
   * the records whose name `matches` (the case-insensitive regular expression
   * made from the key), with three levels of children; none is a 400.
   */
  function SearchCategory(db: map<Id, Category>, key: string, matches: string -> bool)
    : (r: Result<set<Tree>, AppError>)
    ensures IsNumericText(key) ==> r == Failure(New("The " + key + " query parameter must be a string", 400))
    ensures !IsNumericText(key) && (forall k :: k in db ==> !matches(db[k].name)) ==>
              r == Failure(New(NoSearchMatch, 400))
    ensures r.Failure? <==> IsNumericText(key) || forall k :: k in db ==> !matches(db[k].name)
    ensures r.Success? ==>
              && (forall t :: t in r.value ==> Shaped(db, t, LookupDepth) && matches(t.record.name))
              && (forall k :: k in db && matches(db[k].name) ==> Expand(db, k, LookupDepth) in r.value)
  {
    if IsNumericText(key) then Failure(New("The " + key + " query parameter must be a string", 400))
    else
      var found := Views(db, k => k in db && matches(db[k].name));
      assert found == {} ==> forall k :: k in db ==> !matches(db[k].name) by {
        if exists k :: k in db && matches(db[k].name) {
          var k :| k in db && matches(db[k].name);
          assert Expand(db, k, LookupDepth) in found;
        }
      }
      if found == {} then Failure(New(NoSearchMatch, 400)) else Success(found)
  }

  /** A key that is a decimal number is always refused. */
  lemma SearchRefusesNumbers(db: map<Id, Category>, n: int, matches: string -> bool)
    ensures SearchCategory(db, Text.IntText(n), matches).Failure?
  {
    IntTextIsNumeric(n);
  }

  // ---------------------------------------------------------------------------
  // updateCategory
  // ---------------------------------------------------------------------------

  /** The body names a truthy parent other than the current one. */
  predicate Moving(db: map<Id, Category>, id: Id, body: CategoryBody)
    requires id in db
  {
    Truthy(body.parentId) && db[id].parentId != body.parentId.value
  }

  /** The body names no parent while the record is not top-level. */
  predicate Clearing(db: map<Id, Category>, id: Id, body: CategoryBody)
    requires id in db
  {
    !Truthy(body.parentId) && db[id].parentId != Root
  }

  /** The links after the parent steps of `updateCategory`, when they succeed. */
  function Relinked(db: map<Id, Category>, id: Id, body: CategoryBody): (r: map<Id, Category>)
    requires id in db
    requires Moving(db, id, body) ==> body.parentId.value in db
    ensures r.Keys == db.Keys
    ensures r[id].parentId == if Moving(db, id, body) then body.parentId.value
                              else if Clearing(db, id, body) then Root
                              else db[id].parentId
    ensures !Moving(db, id, body) && !Clearing(db, id, body) ==> r == db
  {
    if Moving(db, id, body) then Reparent(db, id, body.parentId.value)
    else if Clearing(db, id, body) then Unparent(db, id)
    else db
  }

  /**
   * `updateCategory`. The record must exist and must not name itself as parent.
   * A change to another truthy parent pulls the record from its old parent
   * (unless that is "", or "0"), then needs the new parent to exist: if it does
   * not, the request fails with the record already pulled but its `parentId`
   * unchanged. Otherwise the record is pushed onto the new parent (if not already
   * there) and re-pointed. A falsy parent on a record that is not top-level pulls
   * it from its parent and makes it top-level. Finally the body is applied with
   * the update validators. Apart from that one failure the links stay consistent,
   * and that failure breaks them whenever the old parent is stored.
   */
  method UpdateCategory(store: CategoryStore, id: Id, body: CategoryBody) returns (r: Result<Option<Category>, Fault>)
    requires store.Valid()
    modifies store
    ensures store.Valid()
    ensures id !in old(store.records) ==>
              r == Failure(Refused(UpdateNotFound, 404)) && store.records == old(store.records)
    ensures id in old(store.records) && body.parentId == Some(id) ==>
              r == Failure(Refused(OwnParent, 400)) && store.records == old(store.records)
    ensures id in old(store.records) && body.parentId != Some(id) && Orphaning(old(store.records), id, body) ==>
              r == Failure(Refused(NewParentMissing, 400)) && store.records == Orphaned(old(store.records), id)
    ensures id in old(store.records) && body.parentId != Some(id) && !Orphaning(old(store.records), id, body) ==>
              (r, store.records) == Updated(Relinked(old(store.records), id, body), id, body)
    ensures Consistent(old(store.records))
            && !(id in old(store.records) && body.parentId != Some(id) && Orphaning(old(store.records), id, body)) ==>
              Consistent(store.records)
    ensures Consistent(old(store.records)) && id in old(store.records) && body.parentId != Some(id)
            && Orphaning(old(store.records), id, body) && old(store.records)[id].parentId in old(store.records) ==>
              !Consistent(store.records)
  {
    ghost var db := store.records;
    var currDoc := store.FindById(Some(id));
    var newParentDoc := store.FindById(body.parentId);
    if currDoc.None? {
      return Failure(Refused(UpdateNotFound, 404));
    }
    if body.parentId == Some(id) {
      return Failure(Refused(OwnParent, 400));
    }
    if Consistent(db) && !Orphaning(db, id, body) {
      RelinkedUpdateKeepsConsistent(db, id, body);
    }
    var orphaned := RelinkParent(store, id, currDoc.value, body, newParentDoc);
    if orphaned {
      return Failure(Refused(NewParentMissing, 400));
    }
    r := store.Update(id, body);
  }

  /** The body moves the record to a parent that is not stored. */
  predicate Orphaning(db: map<Id, Category>, id: Id, body: CategoryBody)
    requires id in db
  {
    Moving(db, id, body) && body.parentId.value !in db
  }

  /** What an orphaning update leaves: the record pulled from its old parent, its `parentId` unchanged. */
  function Orphaned(db: map<Id, Category>, id: Id): (r: map<Id, Category>)
    requires id in db
    ensures r.Keys == db.Keys
    ensures forall k :: k in db ==> r[k].parentId == db[k].parentId
    ensures forall k :: k in db && k != db[id].parentId ==> r[k] == db[k]
    ensures var p := db[id].parentId; p in db && p != "" && p != Root ==> id !in r[p].children
  {
    var p := db[id].parentId;
    if p != "" && p != Root then Pulled(db, p, id) else db
  }

  /**
   * The parent steps of `updateCategory` (categoryController.ts:176-219), given
   * the record as read and the new parent as read before any write.
   */
  method RelinkParent(store: CategoryStore, id: Id, current: Category, body: CategoryBody,
                      newParentDoc: Option<Category>) returns (orphaned: bool)
    requires store.Valid() && id in store.records && current == store.records[id] && body.parentId != Some(id)
    requires newParentDoc == store.FindById(body.parentId)
    modifies store
    ensures store.Valid()
    ensures orphaned == Orphaning(old(store.records), id, body)
    ensures orphaned ==> store.records == Orphaned(old(store.records), id)
    ensures !orphaned ==> store.records == Relinked(old(store.records), id, body)
    ensures orphaned && Consistent(old(store.records)) && current.parentId in old(store.records) ==>
              !Consistent(store.records)
  {
    ghost var db := store.records;
    if Consistent(db) && Orphaning(db, id, body) && current.parentId in db {
      OrphanBreaksConsistent(db, id);
    }
    orphaned := false;
    if Truthy(body.parentId) && current.parentId != body.parentId.value {
      if current.parentId != "" && current.parentId != Root {
        store.Pull(current.parentId, id);
      }
      if newParentDoc.Some? {
        if id !in newParentDoc.value.children {
          store.Push(body.parentId.value, id);
        }
      } else {
        return true;
      }
      store.SetParent(id, body.parentId.value);
    } else if !Truthy(body.parentId) && current.parentId != Root {
      if current.parentId != "" {
        store.Pull(current.parentId, id);
      }
      store.SetParent(id, Root);
    }
  }

  lemma RelinkedKeepsConsistent(db: map<Id, Category>, id: Id, body: CategoryBody)
    requires Consistent(db) && LongIds(db) && id in db && body.parentId != Some(id)
    requires Moving(db, id, body) ==> body.parentId.value in db
    ensures Consistent(Relinked(db, id, body))
  {
    if Moving(db, id, body) {
      ReparentKeepsConsistent(db, id, body.parentId.value);
    } else if Clearing(db, id, body) {
      UnparentKeepsConsistent(db, id);
    }
  }

  /**
   * After the parent steps, applying the body leaves the parent value as it is,
   * or moves it between the two top-level values, so the links stay consistent.
   */
  lemma RelinkedUpdateKeepsConsistent(db: map<Id, Category>, id: Id, body: CategoryBody)
    requires Consistent(db) && LongIds(db) && id in db && body.parentId != Some(id)
    requires !Orphaning(db, id, body)
    ensures Consistent(Updated(Relinked(db, id, body), id, body).1)
  {
    RelinkedKeepsConsistent(db, id, body);
    var mid := Relinked(db, id, body);
    assert mid.Keys == db.Keys;
    if Updated(mid, id, body).0.Success? {
      PatchKeepsConsistent(mid, id, Patched(mid[id], body));
    }
  }

  // ---------------------------------------------------------------------------
  // deleteCategory, deleteMultipleCategory
  // ---------------------------------------------------------------------------

  /**
   * `deleteCategory`: the record must exist and have no children; it is pulled
   * from its parent when its parent value is longer than one character, then
   * deleted. The deleted record is returned. The links stay consistent.
   */
  method DeleteCategory(store: CategoryStore, id: Id) returns (r: Result<Category, Fault>)
    requires store.Valid()
    modifies store
    ensures store.Valid()
    ensures id !in old(store.records) ==>
              r == Failure(Refused(DeleteNotFound, 404)) && store.records == old(store.records)
    ensures id in old(store.records) && old(store.records)[id].children != [] ==>
              r == Failure(Refused(HasChildren, 400)) && store.records == old(store.records)
    ensures id in old(store.records) && old(store.records)[id].children == [] ==>
              r == Success(old(store.records)[id]) && store.records == DetachLeaf(old(store.records), id)
    ensures Consistent(old(store.records)) ==> Consistent(store.records)
  {
    ghost var db := store.records;
    var category := store.FindById(Some(id));
    if category.None? {
      return Failure(Refused(DeleteNotFound, 404));
    }
    if |category.value.children| != 0 {
      return Failure(Refused(HasChildren, 400));
    }
    var p := category.value.parentId;
    if p != "" && |p| > 1 {
      store.Pull(p, id);
    }
    store.Delete(id);
    r := Success(category.value);
    if Consistent(db) {
      DetachLeafKeepsConsistent(db, id);
    }
  }

  /** `category.some(cat => cat.children.length)`. */
  predicate AnyHasChildren(found: map<Id, Category>)
  {
    exists k :: k in found && found[k].children != []
  }

  /** The set of ids a request lists. */
  function IdSet(ids: seq<Id>): set<Id>
  {
    set i | 0 <= i < |ids| :: ids[i]
  }

  /**
   * `deleteMultipleCategory`: the ids must be a non-empty array, and no record
   * they name may have children. The found records are pulled from their parents
   * in one bulk write and then deleted; the result is their number and the
   * records themselves. Listed ids with no record are ignored: the 404 guard at
   * categoryController.ts:268 asks for an empty result that has an element, so
   * it never fires. A refused request writes nothing.
   */
  function BatchDeleted(db: map<Id, Category>, ids: Option<seq<Id>>)
    : (out: (Result<(nat, map<Id, Category>), Fault>, map<Id, Category>))
    ensures (ids.None? || ids.value == []) ==> out == (Failure(Refused(IdsNotArray, 400)), db)
    ensures ids.Some? && ids.value != [] && AnyHasChildren(FoundIn(db, IdSet(ids.value))) ==>
              out == (Failure(Refused(SomeHaveChildren, 400)), db)
    ensures ids.Some? && ids.value != [] && !AnyHasChildren(FoundIn(db, IdSet(ids.value))) ==>
              var found := FoundIn(db, IdSet(ids.value));
              && out.0 == Success((|found.Keys|, found))
              && out.1 == DetachMany(db, IdSet(ids.value))
  {
    if ids.None? || ids.value == [] then (Failure(Refused(IdsNotArray, 400)), db)
    else
      var found := FoundIn(db, IdSet(ids.value));
      if AnyHasChildren(found) then (Failure(Refused(SomeHaveChildren, 400)), db)
      else (Success((|found.Keys|, found)), DetachMany(db, IdSet(ids.value)))
  }

  /** `deleteMultipleCategory` on the store. The links stay consistent. */
  method DeleteMultipleCategory(store: CategoryStore, ids: Option<seq<Id>>)
    returns (r: Result<(nat, map<Id, Category>), Fault>)
    requires store.Valid()
    modifies store
    ensures store.Valid()
    ensures (r, store.records) == BatchDeleted(old(store.records), ids)
    ensures Consistent(old(store.records)) ==> Consistent(store.records)
  {
    ghost var db := store.records;
    ghost var outcome := BatchDeleted(db, ids);
    if ids.None? || ids.value == [] {
      return Failure(Refused(IdsNotArray, 400));
    }
    var wanted := IdSet(ids.value);
    var category := store.FindIn(wanted);
    FindInIsFoundIn(store, wanted);
    if AnyHasChildren(category) {
      return Failure(Refused(SomeHaveChildren, 400));
    }
    assert outcome == (Success((|category.Keys|, category)), DetachMany(db, wanted));
    DetachFound(store, wanted, category);
    r := Success((|category.Keys|, category));
  }

  lemma FindInIsFoundIn(store: CategoryStore, ids: set<Id>)
    ensures store.FindIn(ids) == FoundIn(store.records, ids)
  {
  }

  /** The writes of `deleteMultipleCategory`: the bulk pulls, if any, then the deletion. */
  method DetachFound(store: CategoryStore, wanted: set<Id>, category: map<Id, Category>)
    requires store.Valid() && category == FoundIn(store.records, wanted) && !AnyHasChildren(category)
    modifies store
    ensures store.Valid()
    ensures store.records == DetachMany(old(store.records), wanted)
    ensures Consistent(old(store.records)) ==> Consistent(store.records)
  {
    ghost var db := store.records;
    assert forall k :: k in db && k in wanted ==> db[k].children == [] by {
      forall k | k in db && k in wanted ensures db[k].children == [] {
        assert k in category;
      }
    }
    if Consistent(db) {
      DetachManyKeepsConsistent(db, wanted);
    }
    var parentUpdates := BatchPulls(category);
    if parentUpdates != {} {
      store.PullAll(parentUpdates);
    } else {
      PulledNothing(db);
    }
    store.DeleteMany(wanted);
  }
}
