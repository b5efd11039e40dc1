/**
 * The category record and its collection (models/categoryModel.ts): the schema's
 * defaults, required fields and unique indexes, the pre-save name normalisation,
 * and the collection itself as a mutable map from id to record with the update
 * operators the controller uses (`create`, `$push`, `$pull`, `findByIdAndUpdate`,
 * `findByIdAndDelete`, `bulkWrite` of pulls, `deleteMany`).
 *
 * The schema declares the child list as `subCategory` (categoryModel.ts:10 and
 * :42) while every handler reads and writes `children`. The model has one child
 * list, `children`, used the way the controller uses it.
 */
module CategoryModel {
  import opened Wrappers
  import opened Text
  import opened AppErrors

  /** A record id. Record ids are opaque strings of at least two characters. */
  type Id = string

  /** The parent value of a top-level record; it never names a record. */
  const Root: string := "0"

  datatype Category = Category(
    parentId: string,
    name: string,
    description: Option<string>,
    status: string,
    stockAvailability: bool,
    children: seq<Id>)

  /** A request body: every field may be absent. */
  datatype CategoryBody = CategoryBody(
    parentId: Option<string>,
    name: Option<string>,
    description: Option<string>,
    status: Option<string>,
    stockAvailability: Option<bool>)

  /**
   * Why a handler fails: an `AppError` it raises itself, a Mongoose validation
   * error (the messages of the failing validators, in schema order), or a
   * duplicate-key error on the named unique field.
   */
  datatype Fault =
    | Rejected(error: AppError)
    | Invalid(messages: seq<string>)
    | Duplicate(field: string)

  /** JavaScript truthiness of an optional string: present and not empty. */
  predicate Truthy(s: Option<string>)
  {
    s.Some? && s.value != ""
  }

  // ---------------------------------------------------------------------------
  // Name normalisation (the pre-save hook)
  // ---------------------------------------------------------------------------

  predicate NoSpacePairs(s: string)
  {
    forall i :: 0 <= i < |s| - 1 ==> !(IsSpace(s[i]) && IsSpace(s[i + 1]))
  }

  /** The characters of `s` that are not `\s`, in order. */
  function NonSpace(s: string): string
  {
    if |s| == 0 then "" else (if IsSpace(s[0]) then "" else [s[0]]) + NonSpace(s[1..])
  }

  lemma TrimStartShorter(s: string)
    requires |s| > 0 && IsSpace(s[0])
    ensures |TrimStartSpace(s)| < |s|
  {
  }

  /**
   * `.replace(/\s{2,}/g, " ")`: scanning left to right, each maximal run of two or
   * more `\s` characters becomes one space; a single `\s` character stays as it is.
   */
  function CollapseSpaceRuns(s: string): (r: string)
    ensures |r| <= |s|
    ensures |r| == 0 <==> |s| == 0
    ensures |s| > 0 ==> (IsSpace(r[0]) <==> IsSpace(s[0]))
    ensures |s| > 0 && !IsSpace(s[0]) ==> r[0] == s[0]
    ensures NoSpacePairs(r)
    decreases |s|
  {
    if |s| == 0 then ""
    else if |s| >= 2 && IsSpace(s[0]) && IsSpace(s[1]) then
      TrimStartShorter(s);
      " " + CollapseSpaceRuns(TrimStartSpace(s))
    else
      [s[0]] + CollapseSpaceRuns(s[1..])
  }

  /** Collapsing keeps every character that is not white space, in order. */
  lemma {:induction false} CollapseKeepsNonSpace(s: string)
    ensures NonSpace(CollapseSpaceRuns(s)) == NonSpace(s)
    decreases |s|
  {
    if |s| > 0 {
      if |s| >= 2 && IsSpace(s[0]) && IsSpace(s[1]) {
        var t := TrimStartSpace(s);
        TrimStartShorter(s);
        CollapseKeepsNonSpace(t);
        TrimmedNonSpace(s);
        assert (" " + CollapseSpaceRuns(t))[1..] == CollapseSpaceRuns(t);
      } else {
        CollapseKeepsNonSpace(s[1..]);
        assert ([s[0]] + CollapseSpaceRuns(s[1..]))[1..] == CollapseSpaceRuns(s[1..]);
      }
    }
  }

  lemma {:induction false} TrimmedNonSpace(s: string)
    ensures NonSpace(TrimStartSpace(s)) == NonSpace(s)
    decreases |s|
  {
    if |s| > 0 && IsSpace(s[0]) {
      TrimmedNonSpace(s[1..]);
    }
  }

  /** A text with no two adjacent white-space characters is left as it is. */
  lemma {:induction false} CollapseFixpoint(s: string)
    requires NoSpacePairs(s)
    ensures CollapseSpaceRuns(s) == s
    decreases |s|
  {
    if |s| > 0 {
      assert NoSpacePairs(s[1..]) by {
        forall i | 0 <= i < |s[1..]| - 1 ensures !(IsSpace(s[1..][i]) && IsSpace(s[1..][i + 1])) {
          assert s[1..][i] == s[i + 1] && s[1..][i + 1] == s[i + 2];
        }
      }
      CollapseFixpoint(s[1..]);
      assert s == [s[0]] + s[1..];
    }
  }

  /** Collapsing brings in no character other than a plain space. */
  lemma {:induction false} CollapseChars(s: string)
    ensures forall i :: 0 <= i < |CollapseSpaceRuns(s)| ==>
              CollapseSpaceRuns(s)[i] == ' ' || CollapseSpaceRuns(s)[i] in s
    decreases |s|
  {
    if |s| > 0 {
      var r := CollapseSpaceRuns(s);
      if |s| >= 2 && IsSpace(s[0]) && IsSpace(s[1]) {
        var t := TrimStartSpace(s);
        TrimStartShorter(s);
        CollapseChars(t);
        assert forall c :: c in t ==> c in s by {
          assert t == s[|s| - |t|..] by { TrimIsSuffix(s); }
        }
        forall i | 0 <= i < |r| ensures r[i] == ' ' || r[i] in s {
          if i > 0 { assert r[i] == CollapseSpaceRuns(t)[i - 1]; }
        }
      } else {
        CollapseChars(s[1..]);
        forall i | 0 <= i < |r| ensures r[i] == ' ' || r[i] in s {
          if i > 0 {
            assert r[i] == CollapseSpaceRuns(s[1..])[i - 1];
            assert forall c :: c in s[1..] ==> c in s;
          }
        }
      }
    }
  }

  lemma {:induction false} TrimIsSuffix(s: string)
    ensures TrimStartSpace(s) == s[|s| - |TrimStartSpace(s)|..]
    decreases |s|
  {
    if |s| > 0 && IsSpace(s[0]) {
      TrimIsSuffix(s[1..]);
    }
  }

  /** Leading white space ends at the last character when that is not white space. */
  lemma {:induction false} TrimStartAppend(a: string, b: string)
    requires |a| > 0 && !IsSpace(a[|a| - 1])
    ensures TrimStartSpace(a + b) == TrimStartSpace(a) + b
    ensures |TrimStartSpace(a)| > 0 && TrimStartSpace(a)[|TrimStartSpace(a)| - 1] == a[|a| - 1]
    decreases |a|
  {
    if IsSpace(a[0]) {
      assert (a + b)[1..] == a[1..] + b;
      TrimStartAppend(a[1..], b);
    }
  }

  /** Skipping a run of white space stops at the first character after it. */
  lemma {:induction false} TrimSpaceRun(w: string, b: string)
    requires forall i :: 0 <= i < |w| ==> IsSpace(w[i])
    requires b == [] || !IsSpace(b[0])
    ensures TrimStartSpace(w + b) == b
    decreases |w|
  {
    if |w| > 0 {
      assert (w + b)[1..] == w[1..] + b;
      TrimSpaceRun(w[1..], b);
    } else {
      assert w + b == b;
    }
  }

  /**
   * A text that ends in a character other than white space collapses on its own:
   * no run of white space crosses its end.
   */
  lemma {:induction false} CollapseAppend(a: string, b: string)
    requires a == [] || !IsSpace(a[|a| - 1])
    ensures CollapseSpaceRuns(a + b) == CollapseSpaceRuns(a) + CollapseSpaceRuns(b)
    decreases |a|
  {
    var s := a + b;
    if |a| == 0 {
      assert s == b;
    } else if |s| >= 2 && IsSpace(s[0]) && IsSpace(s[1]) {
      assert |a| >= 2 && a[0] == s[0] && a[1] == s[1];
      var t := TrimStartSpace(a);
      assert TrimStartSpace(s) == t + b by { TrimStartAppend(a, b); }
      TrimStartShorter(a);
      assert CollapseSpaceRuns(s) == " " + CollapseSpaceRuns(t + b);
      assert CollapseSpaceRuns(a) == " " + CollapseSpaceRuns(t);
      assert CollapseSpaceRuns(t + b) == CollapseSpaceRuns(t) + CollapseSpaceRuns(b) by {
        TrimStartAppend(a, b);
        CollapseAppend(t, b);
      }
      Regrouped(" ", CollapseSpaceRuns(t), CollapseSpaceRuns(b));
    } else if |a| == 1 {
      assert s[1..] == b;
      assert CollapseSpaceRuns(s) == [a[0]] + CollapseSpaceRuns(b);
    } else {
      assert a[0] == s[0] && a[1] == s[1];
      assert s[1..] == a[1..] + b;
      assert CollapseSpaceRuns(s) == [a[0]] + CollapseSpaceRuns(a[1..] + b);
      assert CollapseSpaceRuns(a) == [a[0]] + CollapseSpaceRuns(a[1..]);
      assert CollapseSpaceRuns(a[1..] + b) == CollapseSpaceRuns(a[1..]) + CollapseSpaceRuns(b) by {
        CollapseAppend(a[1..], b);
      }
      Regrouped([a[0]], CollapseSpaceRuns(a[1..]), CollapseSpaceRuns(b));
    }
  }

  /** A run of two or more white-space characters becomes one plain space. */
  lemma CollapseRun(w: string, b: string)
    requires |w| >= 2 && forall i :: 0 <= i < |w| ==> IsSpace(w[i])
    requires b == [] || !IsSpace(b[0])
    ensures CollapseSpaceRuns(w + b) == " " + CollapseSpaceRuns(b)
  {
    var s := w + b;
    assert s[0] == w[0] && s[1] == w[1];
    TrimSpaceRun(w, b);
  }

  /** A single white-space character stays as it is. */
  lemma CollapseSingle(c: char, b: string)
    requires IsSpace(c)
    requires b == [] || !IsSpace(b[0])
    ensures CollapseSpaceRuns([c] + b) == [c] + CollapseSpaceRuns(b)
  {
    assert ([c] + b)[1..] == b;
  }

  /**
   * Between two characters that are not white space (or an end of the text), a
   * run of two or more white-space characters is replaced by one space.
   */
  lemma CollapseRunBetween(a: string, w: string, b: string)
    requires a == [] || !IsSpace(a[|a| - 1])
    requires |w| >= 2 && forall i :: 0 <= i < |w| ==> IsSpace(w[i])
    requires b == [] || !IsSpace(b[0])
    ensures CollapseSpaceRuns(a + w + b) == CollapseSpaceRuns(a) + " " + CollapseSpaceRuns(b)
  {
    var x, y := CollapseSpaceRuns(a), CollapseSpaceRuns(b);
    assert CollapseSpaceRuns(a + w + b) == x + CollapseSpaceRuns(w + b) by {
      Regrouped(a, w, b);
      CollapseAppend(a, w + b);
    }
    assert CollapseSpaceRuns(w + b) == " " + y by { CollapseRun(w, b); }
    Regrouped(x, " ", y);
  }

  /** Between two characters that are not white space, a lone white-space character is kept. */
  lemma CollapseSingleBetween(a: string, c: char, b: string)
    requires a == [] || !IsSpace(a[|a| - 1])
    requires IsSpace(c)
    requires b == [] || !IsSpace(b[0])
    ensures CollapseSpaceRuns(a + [c] + b) == CollapseSpaceRuns(a) + [c] + CollapseSpaceRuns(b)
  {
    var x, y := CollapseSpaceRuns(a), CollapseSpaceRuns(b);
    assert CollapseSpaceRuns(a + [c] + b) == x + CollapseSpaceRuns([c] + b) by {
      Regrouped(a, [c], b);
      CollapseAppend(a, [c] + b);
    }
    assert CollapseSpaceRuns([c] + b) == [c] + y by { CollapseSingle(c, b); }
    Regrouped(x, [c], y);
  }

  /**
   * The stored form of a name: its first character upper-cased, the rest
   * lower-cased with runs of white space collapsed. Nothing is trimmed and the
   * first character never takes part in a collapse. `name[0]` is read, so the
   * name must not be empty; a required-field check runs before this hook.
   */
  function NormalizeName(name: string): (r: string)
    requires |name| > 0
    ensures 1 <= |r| <= |name|
    ensures r[0] == ToUpper(name[0])
    ensures forall i :: 1 <= i < |r| ==> !IsAsciiUpper(r[i])
    ensures NoSpacePairs(r[1..])
    ensures NonSpace(r[1..]) == NonSpace(LowerAll(name[1..]))
  {
    var tail := CollapseSpaceRuns(LowerAll(name[1..]));
    CollapseChars(LowerAll(name[1..]));
    CollapseKeepsNonSpace(LowerAll(name[1..]));
    var r := [ToUpper(name[0])] + tail;
    assert r[1..] == tail;
    assert forall i :: 1 <= i < |r| ==> r[i] == tail[i - 1];
    r
  }

  lemma LowerAllIdentity(s: string)
    requires forall i :: 0 <= i < |s| ==> !IsAsciiUpper(s[i])
    ensures LowerAll(s) == s
  {
  }

  /** Saving a record again leaves its already normalised name unchanged. */
  lemma NormalizeIdempotent(name: string)
    requires |name| > 0
    ensures NormalizeName(NormalizeName(name)) == NormalizeName(name)
  {
    var r := NormalizeName(name);
    var tail := r[1..];
    LowerAllIdentity(tail);
    CollapseFixpoint(tail);
    assert r == [r[0]] + tail;
  }

  // ---------------------------------------------------------------------------
  // Schema: required fields, defaults, unique indexes
  // ---------------------------------------------------------------------------

  const NameRequired: string := "A category requires a name"
  const StatusRequired: string := "A category requires a status"

  /**
   * The failing `required` validators for the values a write would store: a
   * string field fails when it is missing or empty. `status` has a default, so it
   * only fails when it is given as the empty string.
   */
  function RequiredErrors(name: Option<string>, status: Option<string>): seq<string>
  {
    (if !Truthy(name) then [NameRequired] else [])
    + (if status == Some("") then [StatusRequired] else [])
  }

  /**
   * `Category.create(body)` before it reaches the collection: validation, then
   * the schema defaults, then the pre-save normalisation of the name.
   */
  function NewCategory(body: CategoryBody): (r: Result<Category, Fault>)
    ensures r.Failure? <==> !Truthy(body.name) || body.status == Some("")
    ensures r.Failure? ==> r.error == Invalid(RequiredErrors(body.name, body.status))
    ensures r.Success? ==>
              && r.value.name == NormalizeName(body.name.value)
              && r.value.parentId == (if body.parentId.Some? then body.parentId.value else Root)
              && r.value.status == (if body.status.Some? then body.status.value else "active")
              && r.value.stockAvailability == (body.stockAvailability == Some(true))
              && r.value.description == body.description
              && r.value.children == []
  {
    var errors := RequiredErrors(body.name, body.status);
    if errors != [] then Failure(Invalid(errors))
    else
      Success(Category(
        if body.parentId.Some? then body.parentId.value else Root,
        NormalizeName(body.name.value),
        body.description,
        if body.status.Some? then body.status.value else "active",
        if body.stockAvailability.Some? then body.stockAvailability.value else false,
        []))
  }

  /**
   * The unique index that `doc` would break among `others`: `name` is checked
   * first, then `description`. An absent description is indexed as null, so two
   * records without one clash as well.
   */
  function DuplicateField(others: map<Id, Category>, doc: Category): (r: Option<string>)
    ensures r == None <==>
              forall k :: k in others ==> others[k].name != doc.name && others[k].description != doc.description
    ensures r == Some("name") <==> exists k :: k in others && others[k].name == doc.name
    ensures r == Some("description") <==>
              && (forall k :: k in others ==> others[k].name != doc.name)
              && exists k :: k in others && others[k].description == doc.description
  {
    if exists k :: k in others && others[k].name == doc.name then Some("name")
    else if exists k :: k in others && others[k].description == doc.description then Some("description")
    else None
  }

  /**
   * What inserting `body` into `db` stores, or why it is refused: the validation
   * error first, then the first unique index the new record would break.
   */
  function Inserted(db: map<Id, Category>, body: CategoryBody): (r: Result<Category, Fault>)
    ensures r.Success? <==> NewCategory(body).Success? && DuplicateField(db, NewCategory(body).value) == None
    ensures r.Success? ==> r.value == NewCategory(body).value
    ensures NewCategory(body).Failure? ==> r == Failure(NewCategory(body).error)
    ensures NewCategory(body).Success? && r.Failure? ==>
              r.error == Duplicate(DuplicateField(db, NewCategory(body).value).value)
  {
    match NewCategory(body)
    case Failure(e) => Failure(e)
    case Success(c) =>
      match DuplicateField(db, c)
      case Some(field) => Failure(Duplicate(field))
      case None => Success(c)
  }

  predicate NamesNothing(body: CategoryBody)
  {
    body.parentId.None? && body.name.None? && body.description.None? && body.status.None?
    && body.stockAvailability.None?
  }

  predicate NamesEverything(body: CategoryBody)
  {
    body.parentId.Some? && body.name.Some? && body.description.Some? && body.status.Some?
    && body.stockAvailability.Some?
  }

  /**
   * `findByIdAndUpdate(id, body)`: the present fields replace the stored ones. No
   * save hook runs on this path, so the name is stored as given.
   */
  function Patched(c: Category, body: CategoryBody): (r: Category)
    ensures r.children == c.children
    ensures r.parentId == if body.parentId.Some? then body.parentId.value else c.parentId
    ensures r.name == if body.name.Some? then body.name.value else c.name
    ensures r.description == if body.description.Some? then body.description else c.description
    ensures r.status == if body.status.Some? then body.status.value else c.status
    ensures r.stockAvailability == if body.stockAvailability.Some? then body.stockAvailability.value else c.stockAvailability
    ensures NamesNothing(body) ==> r == c
  {
    c.(parentId := if body.parentId.Some? then body.parentId.value else c.parentId,
       name := if body.name.Some? then body.name.value else c.name,
       description := if body.description.Some? then body.description else c.description,
       status := if body.status.Some? then body.status.value else c.status,
       stockAvailability := if body.stockAvailability.Some? then body.stockAvailability.value
                            else c.stockAvailability)
  }

  /**
   * A present field always wins: patching again with the same body changes
   * nothing, and a body that names every field gives the same record whatever it
   * patches (apart from the child list, which no body can set).
   */
  lemma PatchedFacts(c: Category, d: Category, body: CategoryBody)
    ensures Patched(Patched(c, body), body) == Patched(c, body)
    ensures NamesEverything(body) && c.children == d.children ==> Patched(c, body) == Patched(d, body)
  {
  }

  /** The update validators: a `required` string set to "" fails; an absent field is not checked. */
  function UpdateErrors(body: CategoryBody): seq<string>
  {
    (if body.name == Some("") then [NameRequired] else [])
    + (if body.status == Some("") then [StatusRequired] else [])
  }

  /**
   * What `findByIdAndUpdate(id, body, {runValidators: true})` returns and leaves
   * stored: null for an unknown id; otherwise the update validators, then the
   * unique indexes on the patched record (against every other record), then the
   * write of that one record. A refused update writes nothing.
   */
  function Updated(db: map<Id, Category>, id: Id, body: CategoryBody)
    : (out: (Result<Option<Category>, Fault>, map<Id, Category>))
    ensures out.0 == Success(None) <==> id !in db
    ensures out.0.Failure? || id !in db ==> out.1 == db
    ensures id in db ==>
              (out.0.Success? <==> UpdateErrors(body) == [] && DuplicateField(db - {id}, Patched(db[id], body)).None?)
    ensures id in db && out.0.Success? ==>
              out.0.value == Some(Patched(db[id], body)) && out.1 == db[id := Patched(db[id], body)]
    ensures id in db && UpdateErrors(body) != [] ==> out.0 == Failure(Invalid(UpdateErrors(body)))
  {
    if id !in db then (Success(None), db)
    else if UpdateErrors(body) != [] then (Failure(Invalid(UpdateErrors(body))), db)
    else
      var doc := Patched(db[id], body);
      match DuplicateField(db - {id}, doc)
      case Some(field) => (Failure(Duplicate(field)), db)
      case None => (Success(Some(doc)), db[id := doc])
  }

  /**
   * No save hook runs on the update path: a successful update stores a given
   * name exactly as the body spells it, and keeps the stored name otherwise.
   */
  lemma UpdateStoresNameAsGiven(db: map<Id, Category>, id: Id, body: CategoryBody)
    requires id in db && Updated(db, id, body).0.Success?
    ensures Updated(db, id, body).1[id].name == if body.name.Some? then body.name.value else db[id].name
  {
  }

  // ---------------------------------------------------------------------------
  // The array operators on `children`
  // ---------------------------------------------------------------------------

  /** `$pull`: every occurrence of `x` leaves, the rest keep their order. */
  function Remove(s: seq<Id>, x: Id): (r: seq<Id>)
    ensures x !in r
    ensures forall y :: y in s && y != x ==> y in r
    ensures forall y :: y in r ==> y in s
    ensures forall y :: y != x ==> multiset(r)[y] == multiset(s)[y]
    ensures x !in s ==> r == s
  {
    if |s| == 0 then []
    else
      assert s == [s[0]] + s[1..];
      (if s[0] == x then [] else [s[0]]) + Remove(s[1..], x)
  }

  /** Many `$pull`s on one array at once: every element of `xs` leaves. */
  function RemoveEvery(s: seq<Id>, xs: set<Id>): (r: seq<Id>)
    ensures forall y :: y in r <==> y in s && y !in xs
    ensures forall y :: y !in xs ==> multiset(r)[y] == multiset(s)[y]
  {
    if |s| == 0 then []
    else
      assert s == [s[0]] + s[1..];
      (if s[0] in xs then [] else [s[0]]) + RemoveEvery(s[1..], xs)
  }

  /** One id is kept exactly when it is not the pulled one. */
  lemma RemoveSingle(y: Id, x: Id)
    ensures Remove([y], x) == if y == x then [] else [y]
  {
    assert [y][1..] == [];
  }

  /** `$pull` looks at the first id, then at the rest. */
  lemma RemoveCons(y: Id, rest: seq<Id>, x: Id)
    ensures Remove([y] + rest, x) == Remove([y], x) + Remove(rest, x)
  {
    assert ([y] + rest)[1..] == rest;
    RemoveSingle(y, x);
  }

  /** `$pull` runs id by id: the remaining ids keep their order. */
  lemma {:induction false} RemoveAppend(a: seq<Id>, b: seq<Id>, x: Id)
    ensures Remove(a + b, x) == Remove(a, x) + Remove(b, x)
    decreases |a|
  {
    if |a| == 0 {
      assert a + b == b;
    } else {
      SplitHead(a, b);
      RemoveCons(a[0], a[1..], x);
      RemoveCons(a[0], a[1..] + b, x);
      RemoveAppend(a[1..], b, x);
      Regroup(Remove(a + b, x), Remove(a, x), Remove([a[0]], x),
              Remove(a[1..] + b, x), Remove(a[1..], x), Remove(b, x));
    }
  }

  /** One id is kept exactly when it is not among the pulled ones. */
  lemma RemoveEverySingle(y: Id, xs: set<Id>)
    ensures RemoveEvery([y], xs) == if y in xs then [] else [y]
  {
    assert [y][1..] == [];
  }

  /** The bulk pull looks at the first id, then at the rest. */
  lemma RemoveEveryCons(y: Id, rest: seq<Id>, xs: set<Id>)
    ensures RemoveEvery([y] + rest, xs) == RemoveEvery([y], xs) + RemoveEvery(rest, xs)
  {
    assert ([y] + rest)[1..] == rest;
    RemoveEverySingle(y, xs);
  }

  /** The bulk pull runs id by id: the remaining ids keep their order. */
  lemma {:induction false} RemoveEveryAppend(a: seq<Id>, b: seq<Id>, xs: set<Id>)
    ensures RemoveEvery(a + b, xs) == RemoveEvery(a, xs) + RemoveEvery(b, xs)
    decreases |a|
  {
    if |a| == 0 {
      assert a + b == b;
    } else {
      SplitHead(a, b);
      RemoveEveryCons(a[0], a[1..], xs);
      RemoveEveryCons(a[0], a[1..] + b, xs);
      RemoveEveryAppend(a[1..], b, xs);
      Regroup(RemoveEvery(a + b, xs), RemoveEvery(a, xs), RemoveEvery([a[0]], xs),
              RemoveEvery(a[1..] + b, xs), RemoveEvery(a[1..], xs), RemoveEvery(b, xs));
    }
  }

  /** `findByIdAndUpdate(p, {$push: {children: c}})`; an unknown `p` changes nothing. */
  function Pushed(db: map<Id, Category>, p: Id, c: Id): (r: map<Id, Category>)
    ensures r.Keys == db.Keys
    ensures forall k :: k in db && k != p ==> r[k] == db[k]
    ensures p in db ==> r[p] == db[p].(children := db[p].children + [c])
  {
    if p in db then db[p := db[p].(children := db[p].children + [c])] else db
  }

  /** `findByIdAndUpdate(p, {$pull: {children: c}})`; an unknown `p` changes nothing. */
  function Pulled(db: map<Id, Category>, p: Id, c: Id): (r: map<Id, Category>)
    ensures r.Keys == db.Keys
    ensures forall k :: k in db && k != p ==> r[k] == db[k]
    ensures p in db ==> r[p] == db[p].(children := Remove(db[p].children, c))
  {
    if p in db then db[p := db[p].(children := Remove(db[p].children, c))] else db
  }

  /** The ids a set of pulls removes from the children of `p`. */
  function PullsFrom(pulls: set<(Id, Id)>, p: Id): (r: set<Id>)
    ensures forall c :: c in r <==> (p, c) in pulls
  {
    set pc | pc in pulls && pc.0 == p :: pc.1
  }

  /** One `bulkWrite` of `updateOne` pulls: `(p, c)` pulls `c` from the children of `p`. */
  function PulledAll(db: map<Id, Category>, pulls: set<(Id, Id)>): (r: map<Id, Category>)
    ensures r.Keys == db.Keys
    ensures forall k :: k in db ==>
              r[k] == db[k].(children := RemoveEvery(db[k].children, PullsFrom(pulls, k)))
  {
    map k | k in db :: db[k].(children := RemoveEvery(db[k].children, PullsFrom(pulls, k)))
  }

  // ---------------------------------------------------------------------------
  // Parent/child consistency
  // ---------------------------------------------------------------------------

  /** The record `c` is held exactly once by the record its `parentId` names, if any. */
  predicate LinkedToParent(db: map<Id, Category>, c: Id)
    requires c in db
  {
    var p := db[c].parentId;
    if p in db then multiset(db[p].children)[c] == 1 else p == Root || p == ""
  }

  /** Every id in a child list names a record whose `parentId` points back. */
  predicate ChildrenPointBack(db: map<Id, Category>, p: Id)
    requires p in db
  {
    forall c :: c in db[p].children ==> c in db && db[c].parentId == p
  }

  /**
   * The two halves of the parent/child agreement the handlers aim for: each
   * record sits exactly once in its parent's child list (or has a top-level
   * parent value), and only there. It says nothing about cycles.
   */
  predicate Consistent(db: map<Id, Category>)
  {
    && (forall c :: c in db ==> LinkedToParent(db, c))
    && (forall p :: p in db ==> ChildrenPointBack(db, p))
  }

  // ---------------------------------------------------------------------------
  // The collection
  // ---------------------------------------------------------------------------

  /** The `categories` collection, with a source of fresh ids. */
  class CategoryStore {
    var records: map<Id, Category>
    /** Every id handed out so far is shorter than this; the next one has exactly this length. */
    var nextIdLength: nat

    ghost predicate Valid()
      reads this
    {
      && nextIdLength >= 2
      && forall k :: k in records ==> 2 <= |k| < nextIdLength
    }

    constructor ()
      ensures Valid() && records == map[]
    {
      records := map[];
      nextIdLength := 2;
    }

    /** `findById(id)`; an absent id yields null. */
    function FindById(id: Option<string>): (r: Option<Category>)
      reads this
      ensures r.Some? <==> id.Some? && id.value in records
      ensures r.Some? ==> r.value == records[id.value]
    {
      if id.Some? && id.value in records then Some(records[id.value]) else None
    }

    /**
     * `Category.create(body)`: validation, defaults and normalisation, the unique
     * indexes, and then the insertion under a fresh id.
     */
    method Create(body: CategoryBody) returns (r: Result<(Id, Category), Fault>)
      requires Valid()
      modifies this
      ensures Valid()
      ensures Inserted(old(records), body).Failure? ==>
                r == Failure(Inserted(old(records), body).error) && records == old(records)
      ensures Inserted(old(records), body).Success? ==>
                && r.Success? && r.value.1 == Inserted(old(records), body).value
                && r.value.0 !in old(records) && |r.value.0| >= 2
                && records == old(records)[r.value.0 := r.value.1]
    {
      var built := NewCategory(body);
      if built.Failure? {
        return Failure(built.error);
      }
      var clash := DuplicateField(records, built.value);
      if clash.Some? {
        return Failure(Duplicate(clash.value));
      }
      var id: Id := seq(nextIdLength, _ => 'f');
      assert id !in records;
      records := records[id := built.value];
      nextIdLength := nextIdLength + 1;
      r := Success((id, built.value));
    }

    /** `$push` of `child` onto the children of `parent`. */
    method Push(parent: Id, child: Id)
      requires Valid()
      modifies this`records
      ensures Valid()
      ensures records == Pushed(old(records), parent, child)
    {
      records := Pushed(records, parent, child);
    }

    /** `$pull` of `child` from the children of `parent`. */
    method Pull(parent: Id, child: Id)
      requires Valid()
      modifies this`records
      ensures Valid()
      ensures records == Pulled(old(records), parent, child)
    {
      records := Pulled(records, parent, child);
    }

    /** `findByIdAndUpdate(id, {parentId})`. */
    method SetParent(id: Id, parentId: string)
      requires Valid()
      modifies this`records
      ensures Valid()
      ensures records == if id in old(records) then old(records)[id := old(records)[id].(parentId := parentId)]
                         else old(records)
    {
      if id in records {
        records := records[id := records[id].(parentId := parentId)];
      }
    }

    /** `findByIdAndUpdate(id, body, {runValidators: true})`. */
    method Update(id: Id, body: CategoryBody) returns (r: Result<Option<Category>, Fault>)
      requires Valid()
      modifies this`records
      ensures Valid()
      ensures (r, records) == Updated(old(records), id, body)
    {
      if id !in records {
        return Success(None);
      }
      var errors := UpdateErrors(body);
      if errors != [] {
        return Failure(Invalid(errors));
      }
      var doc := Patched(records[id], body);
      var clash := DuplicateField(records - {id}, doc);
      if clash.Some? {
        return Failure(Duplicate(clash.value));
      }
      records := records[id := doc];
      r := Success(Some(doc));
    }

    /** `findByIdAndDelete(id)`. */
    method Delete(id: Id)
      requires Valid()
      modifies this`records
      ensures Valid()
      ensures records == old(records) - {id}
    {
      records := records - {id};
    }

    /** `find({_id: {$in: ids}})`: the records whose id is listed. */
    function FindIn(ids: set<Id>): (r: map<Id, Category>)
      reads this
      ensures r.Keys == records.Keys * ids
      ensures forall k :: k in r ==> r[k] == records[k]
    {
      map k | k in records && k in ids :: records[k]
    }

    /** `bulkWrite` of `updateOne` pulls. */
    method PullAll(pulls: set<(Id, Id)>)
      requires Valid()
      modifies this`records
      ensures Valid()
      ensures records == PulledAll(old(records), pulls)
    {
      records := PulledAll(records, pulls);
    }

    /** `deleteMany({_id: {$in: ids}})`. */
    method DeleteMany(ids: set<Id>)
      requires Valid()
      modifies this`records
      ensures Valid()
      ensures records == old(records) - ids
    {
      records := records - ids;
    }
  }
}
