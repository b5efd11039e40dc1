/**
 * The query-pipeline builder (utils/APIFeatures.ts): an object holding the
 * request's query string and an aggregation pipeline that each method appends
 * stages to, in the order the methods are called.
 */
module ApiFeatures {
  import opened Wrappers
  import opened Text
  import opened DecimalText
  import opened AppErrors

  /** The query string: each parameter's value as text. */
  type Query = map<string, string>

  /** A value in a `$match` filter: the query text, or the boolean made for the stock flag. */
  datatype FilterValue = Str(text: string) | Flag(flag: bool)

  /**
   * The stages the builder emits. `Sort` and `Project` hold their objects as
   * key lists in property order (the sort keys with their directions, the
   * projected fields each mapped to 1).
   */
  datatype Stage =
    | Match(filter: map<string, FilterValue>)
    | Sort(keys: seq<(string, int)>)
    | Project(fields: seq<string>)
    | Skip(count: int)
    | Limit(count: int)

  /** The control parameters that `Filtering` removes before building its filter. */
  const ControlKeys: seq<string> := ["page", "sort", "limit", "fields"]

  const StockKey: string := "stock_availability"

  const SortFields: seq<string> :=
    ["name", "description", "status", "stock_availability", "createdAt", "updatedAt"]

  const SortFieldsDesc: seq<string> :=
    ["-name", "-description", "-status", "-stock_availability", "-createdAt", "-updatedAt"]

  const ProjectFields: seq<string> := ["name", "description", "status", "createdAt", "updatedAt"]

  /** `this.queryString[key]` is truthy: present and not empty. */
  predicate Given(q: Query, key: string)
  {
    key in q && q[key] != ""
  }

  // ---------------------------------------------------------------------------
  // Filtering
  // ---------------------------------------------------------------------------

  /** The `$match` object: every parameter but the control ones, the stock flag made boolean. */
  function MatchFilter(q: Query): (m: map<string, FilterValue>)
    ensures m.Keys == q.Keys - {"page", "sort", "limit", "fields"}
    ensures forall k :: k in m && k != StockKey ==> m[k] == Str(q[k])
    ensures StockKey in m ==> m[StockKey] == Flag(q[StockKey] == "true")
  {
    map k | k in q && k !in ControlKeys :: if k == StockKey then Flag(q[k] == "true") else Str(q[k])
  }

  // ---------------------------------------------------------------------------
  // Token validation
  // ---------------------------------------------------------------------------

  /** `tokens.filter(t => !allowed.includes(t))`. */
  function InvalidTokens(tokens: seq<string>, allowed: seq<string>): (bad: seq<string>)
    ensures forall t :: t in bad ==> t in tokens && t !in allowed
    ensures forall i :: 0 <= i < |tokens| && tokens[i] !in allowed ==> tokens[i] in bad
    ensures |bad| <= |tokens|
    ensures (bad == []) == (forall i :: 0 <= i < |tokens| ==> tokens[i] in allowed)
    ensures forall t :: t !in allowed ==> multiset(bad)[t] == multiset(tokens)[t]
  {
    if |tokens| == 0 then []
    else
      var rest := InvalidTokens(tokens[1..], allowed);
      assert forall i :: 1 <= i < |tokens| ==> tokens[i] == tokens[1..][i - 1];
      assert multiset(tokens) == multiset{tokens[0]} + multiset(tokens[1..]) by {
        assert tokens == [tokens[0]] + tokens[1..];
      }
      if tokens[0] in allowed then rest else [tokens[0]] + rest
  }

  /** A single token is kept exactly when it is not allowed. */
  lemma InvalidTokensSingle(t: string, allowed: seq<string>)
    ensures InvalidTokens([t], allowed) == if t in allowed then [] else [t]
  {
    assert [t][1..] == [];
  }

  /** The filter looks at the first token, then at the rest. */
  lemma InvalidTokensCons(t: string, rest: seq<string>, allowed: seq<string>)
    ensures InvalidTokens([t] + rest, allowed) == InvalidTokens([t], allowed) + InvalidTokens(rest, allowed)
  {
    assert ([t] + rest)[1..] == rest;
    InvalidTokensSingle(t, allowed);
  }

  /** The filter runs token by token: the rejected tokens keep their input order. */
  lemma {:induction false} InvalidTokensAppend(a: seq<string>, b: seq<string>, allowed: seq<string>)
    ensures InvalidTokens(a + b, allowed) == InvalidTokens(a, allowed) + InvalidTokens(b, allowed)
    decreases |a|
  {
    if |a| == 0 {
      assert a + b == b;
    } else {
      SplitHead(a, b);
      InvalidTokensCons(a[0], a[1..], allowed);
      InvalidTokensCons(a[0], a[1..] + b, allowed);
      InvalidTokensAppend(a[1..], b, allowed);
      Regroup(InvalidTokens(a + b, allowed), InvalidTokens(a, allowed), InvalidTokens([a[0]], allowed),
              InvalidTokens(a[1..] + b, allowed), InvalidTokens(a[1..], allowed), InvalidTokens(b, allowed));
    }
  }

  /** The error `sorting` throws, naming every rejected token in input order. */
  function SortError(bad: seq<string>): AppError
  {
    New("Invalid sorting field(s): " + Join(bad, ", ")
        + ". Allowed fields for Ascending order are: " + Join(SortFields, ", ")
        + " and Allowed fields for Descending order are: " + Join(SortFieldsDesc, ", "), 400)
  }

  /** The error `fieldLimit` throws, naming every rejected token in input order. */
  function FieldError(bad: seq<string>): AppError
  {
    New("Invalid field(s): " + Join(bad, ", ") + ". Allowed fields are: " + Join(ProjectFields, ", "), 400)
  }

  // ---------------------------------------------------------------------------
  // Keys in property order
  // ---------------------------------------------------------------------------

  /** The distinct elements of `s`, each at the place of its first occurrence. */
  function Dedup(s: seq<string>): seq<string>
  {
    if |s| == 0 then []
    else
      var d := Dedup(s[..|s| - 1]);
      if s[|s| - 1] in d then d else d + [s[|s| - 1]]
  }

  predicate Distinct<T(==)>(s: seq<T>)
  {
    forall i, j :: 0 <= i < j < |s| ==> s[i] != s[j]
  }

  /** The index of the first occurrence of `x` in `s`. */
  function FirstIndex(s: seq<string>, x: string): (i: nat)
    requires x in s
    ensures i < |s| && s[i] == x && x !in s[..i]
  {
    if s[0] == x then 0 else FirstIndex(s[1..], x) + 1
  }

  /**
   * `Dedup` keeps exactly the elements of its input, once each, ordered by where
   * each first occurs.
   */
  lemma {:induction false} DedupFacts(s: seq<string>)
    ensures Distinct(Dedup(s))
    ensures forall x :: x in Dedup(s) <==> x in s
    ensures forall i, j :: 0 <= i < j < |Dedup(s)| ==> FirstIndex(s, Dedup(s)[i]) < FirstIndex(s, Dedup(s)[j])
  {
    if |s| > 0 {
      var front := s[..|s| - 1];
      var last := s[|s| - 1];
      DedupFacts(front);
      assert s == front + [last];
      var d := Dedup(front);
      forall x | x in front ensures FirstIndex(s, x) == FirstIndex(front, x) {
        FirstIndexPrefix(front, [last], x);
      }
      if last !in d {
        assert last !in front;
        assert FirstIndex(s, last) == |s| - 1;
        forall i, j | 0 <= i < j < |d + [last]|
          ensures FirstIndex(s, (d + [last])[i]) < FirstIndex(s, (d + [last])[j])
        {
          if j == |d| {
            assert (d + [last])[i] == d[i];
            assert d[i] in front;
          } else {
            assert (d + [last])[i] == d[i] && (d + [last])[j] == d[j];
            assert d[i] in front && d[j] in front;
          }
        }
      } else {
        forall i, j | 0 <= i < j < |d| ensures FirstIndex(s, d[i]) < FirstIndex(s, d[j]) {
          assert d[i] in front && d[j] in front;
        }
      }
    }
  }

  lemma {:induction false} FirstIndexPrefix(s: seq<string>, t: seq<string>, x: string)
    requires x in s
    ensures FirstIndex(s + t, x) == FirstIndex(s, x)
  {
    if s[0] != x {
      assert (s + t)[1..] == s[1..] + t;
      FirstIndexPrefix(s[1..], t, x);
    }
  }

  // ---------------------------------------------------------------------------
  // Sorting
  // ---------------------------------------------------------------------------

  /** The field a sort token names: the token without a leading '-'. */
  function SortKey(token: string): string
  {
    if |token| > 0 && token[0] == '-' then token[1..] else token
  }

  /** -1 for a '-'-prefixed token, 1 otherwise. */
  function SortDirection(token: string): int
  {
    if |token| > 0 && token[0] == '-' then -1 else 1
  }

  /**
   * `sortBy[key] = dir` on an object whose keys are not integer-like: an existing
   * key keeps its place and takes the new value, a new key goes last.
   */
  function Assign(spec: seq<(string, int)>, key: string, dir: int): (r: seq<(string, int)>)
    ensures |r| == |spec| || (|r| == |spec| + 1 && r[|spec|].0 == key)
  {
    if |spec| == 0 then [(key, dir)]
    else if spec[0].0 == key then [(key, dir)] + spec[1..]
    else [spec[0]] + Assign(spec[1..], key, dir)
  }

  /** The `$sort` object the `forEach` over the tokens builds. */
  function SortSpec(tokens: seq<string>): (spec: seq<(string, int)>)
    ensures 0 < |spec| <= |tokens| || (spec == [] && tokens == [])
    ensures forall i :: 0 <= i < |spec| ==> spec[i].1 == 1 || spec[i].1 == -1
  {
    if |tokens| == 0 then []
    else
      var last := tokens[|tokens| - 1];
      AssignEntries(SortSpec(tokens[..|tokens| - 1]), SortKey(last), SortDirection(last));
      Assign(SortSpec(tokens[..|tokens| - 1]), SortKey(last), SortDirection(last))
  }

  /** Every entry after an assignment is the assigned pair or one that was there before. */
  lemma {:induction false} AssignEntries(spec: seq<(string, int)>, key: string, dir: int)
    ensures forall i :: 0 <= i < |Assign(spec, key, dir)| ==>
              Assign(spec, key, dir)[i] == (key, dir) || Assign(spec, key, dir)[i] in spec
  {
    if |spec| > 0 && spec[0].0 != key {
      AssignEntries(spec[1..], key, dir);
      var rest := Assign(spec[1..], key, dir);
      forall i | 0 < i < |rest| + 1 ensures ([spec[0]] + rest)[i] == (key, dir) || ([spec[0]] + rest)[i] in spec {
        assert ([spec[0]] + rest)[i] == rest[i - 1];
        assert rest[i - 1] in spec[1..] ==> rest[i - 1] in spec;
      }
    } else if |spec| > 0 {
      assert forall i :: 0 < i < |spec| ==> ([(key, dir)] + spec[1..])[i] == spec[i];
    }
  }

  function SortKeys(tokens: seq<string>): (keys: seq<string>)
    ensures |keys| == |tokens|
    ensures forall i :: 0 <= i < |tokens| ==> keys[i] == SortKey(tokens[i])
  {
    seq(|tokens|, i requires 0 <= i < |tokens| => SortKey(tokens[i]))
  }

  /** The direction of the last token that names `key`. */
  function LastDirection(tokens: seq<string>, key: string): int
  {
    if |tokens| == 0 then 0
    else if SortKey(tokens[|tokens| - 1]) == key then SortDirection(tokens[|tokens| - 1])
    else LastDirection(tokens[..|tokens| - 1], key)
  }

  /** Assigning keeps the keys and their order, and appends a new key. */
  lemma {:induction false} AssignKeys(spec: seq<(string, int)>, key: string, dir: int)
    ensures key in Firsts(spec) ==> Firsts(Assign(spec, key, dir)) == Firsts(spec)
    ensures key !in Firsts(spec) ==> Firsts(Assign(spec, key, dir)) == Firsts(spec) + [key]
  {
    if |spec| > 0 {
      assert spec == [spec[0]] + spec[1..];
      FirstsCons(spec[0], spec[1..]);
      if spec[0].0 != key {
        AssignKeys(spec[1..], key, dir);
        FirstsCons(spec[0], Assign(spec[1..], key, dir));
      } else {
        FirstsCons((key, dir), spec[1..]);
      }
    }
  }

  /** With distinct keys, assigning changes the value of `key` only. */
  lemma {:induction false} AssignValues(spec: seq<(string, int)>, key: string, dir: int)
    requires Distinct(Firsts(spec))
    ensures forall i :: 0 <= i < |Assign(spec, key, dir)| ==>
              Assign(spec, key, dir)[i].1 == (if Assign(spec, key, dir)[i].0 == key then dir
                                              else spec[i].1)
  {
    if |spec| > 0 {
      var a := Assign(spec, key, dir);
      if spec[0].0 != key {
        assert Distinct(Firsts(spec[1..])) by {
          assert Firsts(spec[1..]) == Firsts(spec)[1..];
        }
        AssignValues(spec[1..], key, dir);
        var rest := Assign(spec[1..], key, dir);
        assert a == [spec[0]] + rest;
        forall i | 0 < i < |a| ensures a[i].1 == (if a[i].0 == key then dir else spec[i].1) {
          assert a[i] == rest[i - 1];
        }
      } else {
        forall i | 0 < i < |a| ensures a[i].0 != key {
          assert a[i] == spec[i];
          assert Firsts(spec)[0] != Firsts(spec)[i];
        }
      }
    }
  }

  /** The fields of the `$sort` object are the named fields, once each, in first-mention order. */
  lemma {:induction false} SortSpecKeyList(tokens: seq<string>)
    ensures Firsts(SortSpec(tokens)) == Dedup(SortKeys(tokens))
  {
    if |tokens| > 0 {
      var front := tokens[..|tokens| - 1];
      var last := tokens[|tokens| - 1];
      SortSpecKeyList(front);
      AssignKeys(SortSpec(front), SortKey(last), SortDirection(last));
      SortSpecKeysStep(tokens);
    }
  }

  /** Each field of the `$sort` object has the direction of the last token that names it. */
  lemma {:induction false} SortSpecDirections(tokens: seq<string>)
    ensures forall i :: 0 <= i < |SortSpec(tokens)| ==>
              SortSpec(tokens)[i].1 == LastDirection(tokens, SortSpec(tokens)[i].0)
  {
    if |tokens| > 0 {
      var front := tokens[..|tokens| - 1];
      var last := tokens[|tokens| - 1];
      var key, dir := SortKey(last), SortDirection(last);
      SortSpecDirections(front);
      SortSpecKeyList(front);
      DedupFacts(SortKeys(front));
      var prior := SortSpec(front);
      var spec := SortSpec(tokens);
      assert spec == Assign(prior, key, dir);
      AssignKeys(prior, key, dir);
      AssignValues(prior, key, dir);
      forall i | 0 <= i < |spec| ensures spec[i].1 == LastDirection(tokens, spec[i].0) {
        if spec[i].0 != key {
          assert i < |prior|;
          assert Firsts(spec)[i] == Firsts(prior)[i];
          assert LastDirection(tokens, spec[i].0) == LastDirection(front, spec[i].0);
        }
      }
    }
  }

  /**
   * The `$sort` object lists each field named by a token once, in the order of
   * first mention, and gives it the direction of the last token that names it.
   */
  lemma SortSpecShape(tokens: seq<string>)
    ensures Firsts(SortSpec(tokens)) == Dedup(SortKeys(tokens))
    ensures forall i :: 0 <= i < |SortSpec(tokens)| ==>
              SortSpec(tokens)[i].1 == LastDirection(tokens, SortSpec(tokens)[i].0)
  {
    SortSpecKeyList(tokens);
    SortSpecDirections(tokens);
  }

  /** The key list of the last token's field, from that of the shorter tokens. */
  lemma SortSpecKeysStep(tokens: seq<string>)
    requires |tokens| > 0
    ensures var keys := SortKeys(tokens);
            Dedup(keys) == (var d := Dedup(SortKeys(tokens[..|tokens| - 1]));
                            if SortKey(tokens[|tokens| - 1]) in d then d else d + [SortKey(tokens[|tokens| - 1])])
  {
    assert SortKeys(tokens)[..|tokens| - 1] == SortKeys(tokens[..|tokens| - 1]);
  }

  /** Together with `SortSpecShape`: one entry per named field, in first-mention order. */
  lemma SortSpecKeys(tokens: seq<string>)
    ensures Distinct(Firsts(SortSpec(tokens)))
    ensures forall k :: k in Firsts(SortSpec(tokens)) <==> exists t :: t in tokens && SortKey(t) == k
    ensures forall i :: 0 <= i < |SortSpec(tokens)| ==> SortSpec(tokens)[i].0 in SortKeys(tokens)
    ensures forall i, j :: 0 <= i < j < |SortSpec(tokens)| ==>
              FirstIndex(SortKeys(tokens), SortSpec(tokens)[i].0) < FirstIndex(SortKeys(tokens), SortSpec(tokens)[j].0)
  {
    SortSpecShape(tokens);
    DedupFacts(SortKeys(tokens));
    var keys := SortKeys(tokens);
    forall k ensures k in keys <==> exists t :: t in tokens && SortKey(t) == k {
      if k in keys {
        var i :| 0 <= i < |keys| && keys[i] == k;
        assert tokens[i] in tokens;
      }
      if exists t :: t in tokens && SortKey(t) == k {
        var t :| t in tokens && SortKey(t) == k;
        var i :| 0 <= i < |tokens| && tokens[i] == t;
        assert keys[i] == k;
      }
    }
    var spec := SortSpec(tokens);
    forall i, j | 0 <= i < j < |spec| ensures FirstIndex(keys, spec[i].0) < FirstIndex(keys, spec[j].0) {
      assert spec[i].0 == Firsts(spec)[i] && spec[j].0 == Firsts(spec)[j];
    }
  }

  /** What `sorting` appends, or the error it throws. */
  function SortOutcome(q: Query): (r: Result<Stage, AppError>)
    ensures !Given(q, "sort") ==> r == Success(Sort([("createdAt", -1)]))
    ensures Given(q, "sort") ==>
              var tokens := Split(q["sort"], ',');
              && (r.Failure? <==> InvalidTokens(tokens, SortFields + SortFieldsDesc) != [])
              && (r.Failure? ==> r.error == SortError(InvalidTokens(tokens, SortFields + SortFieldsDesc)))
              && (r.Success? ==>
                    && r.value.Sort? && Firsts(r.value.keys) == Dedup(SortKeys(tokens))
                    && forall i :: 0 <= i < |r.value.keys| ==>
                         r.value.keys[i].1 == LastDirection(tokens, r.value.keys[i].0))
  {
    if !Given(q, "sort") then Success(Sort([("createdAt", -1)]))
    else
      var tokens := Split(q["sort"], ',');
      var bad := InvalidTokens(tokens, SortFields + SortFieldsDesc);
      SortSpecShape(tokens);
      if bad != [] then Failure(SortError(bad)) else Success(Sort(SortSpec(tokens)))
  }

  /** `sorting` throws exactly when one of the comma-separated `tokens` of a given `sort` is outside both lists. */
  lemma SortRefusal(q: Query, tokens: seq<string>)
    requires Given(q, "sort") && tokens == Split(q["sort"], ',')
    ensures SortOutcome(q).Failure? <==> exists i :: 0 <= i < |tokens| && tokens[i] !in SortFields + SortFieldsDesc
  {
    RejectsSome(tokens, SortFields + SortFieldsDesc);
  }

  /** `fieldLimit` throws exactly when one of the comma-separated `tokens` of a given `fields` is outside the list. */
  lemma FieldRefusal(q: Query, tokens: seq<string>)
    requires Given(q, "fields") && tokens == Split(q["fields"], ',')
    ensures ProjectOutcome(q).Failure? <==> exists i :: 0 <= i < |tokens| && tokens[i] !in ProjectFields
  {
    RejectsSome(tokens, ProjectFields);
  }

  /** Some token is rejected exactly when one of them is outside the allowed list. */
  lemma RejectsSome(tokens: seq<string>, allowed: seq<string>)
    ensures InvalidTokens(tokens, allowed) != [] <==> exists i :: 0 <= i < |tokens| && tokens[i] !in allowed
  {
  }

  // ---------------------------------------------------------------------------
  // Field limiting
  // ---------------------------------------------------------------------------

  /** What `fieldLimit` appends (nothing without `fields`), or the error it throws. */
  function ProjectOutcome(q: Query): (r: Result<seq<Stage>, AppError>)
    ensures !Given(q, "fields") ==> r == Success([])
    ensures Given(q, "fields") ==>
              var tokens := Split(q["fields"], ',');
              && (r.Failure? <==> InvalidTokens(tokens, ProjectFields) != [])
              && (r.Failure? ==> r.error == FieldError(InvalidTokens(tokens, ProjectFields)))
              && (r.Success? ==>
                    && r.value == [Project(Dedup(tokens))]
                    && Distinct(r.value[0].fields)
                    && forall x :: x in r.value[0].fields <==> x in tokens)
  {
    if !Given(q, "fields") then Success([])
    else
      var tokens := Split(q["fields"], ',');
      var bad := InvalidTokens(tokens, ProjectFields);
      DedupFacts(tokens);
      if bad != [] then Failure(FieldError(bad)) else Success([Project(Dedup(tokens))])
  }

  // ---------------------------------------------------------------------------
  // Pagination
  // ---------------------------------------------------------------------------

  /** `parseInt(q[key], 10) || fallback`: a missing, unreadable or zero value gives the fallback. */
  function NumberOr(q: Query, key: string, fallback: int): (n: int)
    ensures key !in q ==> n == fallback
    ensures key in q && (ParseInt(q[key]).None? || ParseInt(q[key]) == Some(0)) ==> n == fallback
    ensures key in q && ParseInt(q[key]).Some? && ParseInt(q[key]) != Some(0) ==> n == ParseInt(q[key]).value
  {
    var parsed := if key in q then ParseInt(q[key]) else None;
    if parsed.Some? && parsed.value != 0 then parsed.value else fallback
  }

  function PageOf(q: Query): int { NumberOr(q, "page", 1) }

  function LimitOf(q: Query): int { NumberOr(q, "limit", 10) }

  /** The `$skip` and `$limit` stages `paginate` appends. */
  function PageStages(q: Query): seq<Stage>
  {
    [Skip((PageOf(q) - 1) * LimitOf(q)), Limit(LimitOf(q))]
  }

  /** The defaults, and the second page of five. */
  lemma PaginationExamples()
    ensures PageStages(map[]) == [Skip(0), Limit(10)]
    ensures PageStages(map["page" := "2", "limit" := "5"]) == [Skip(5), Limit(5)]
  {
    ParseIntText(2);
    ParseIntText(5);
    assert IntText(2) == "2" && IntText(5) == "5";
  }

  /** A page number of the decimal text of `p`, and likewise a limit, give skip (p - 1) * l. */
  lemma PaginationOfText(p: int, l: int)
    requires p != 0 && l != 0
    ensures PageStages(map["page" := IntText(p), "limit" := IntText(l)]) == [Skip((p - 1) * l), Limit(l)]
  {
    ParseIntText(p);
    ParseIntText(l);
  }

  // ---------------------------------------------------------------------------
  // The builder
  // ---------------------------------------------------------------------------

  class Features {
    var pipeline: seq<Stage>
    const queryString: Query

    constructor (queryString: Query)
      ensures this.queryString == queryString && pipeline == []
    {
      this.queryString := queryString;
      pipeline := [];
    }

    /**
     * Copies the query, deletes the four control keys, turns a present stock flag
     * into `true` exactly when it reads "true", and appends the `$match` stage.
     */
    method Filtering()
      modifies this`pipeline
      ensures pipeline == old(pipeline) + [Match(MatchFilter(queryString))]
      ensures MatchFilter(queryString).Keys == queryString.Keys - {"page", "sort", "limit", "fields"}
      ensures forall k :: k in MatchFilter(queryString) && k != StockKey ==>
                MatchFilter(queryString)[k] == Str(queryString[k])
      ensures StockKey in MatchFilter(queryString) ==>
                MatchFilter(queryString)[StockKey] == Flag(queryString[StockKey] == "true")
    {
      var queryObj := queryString;
      for i := 0 to |ControlKeys|
        invariant queryObj == map k | k in queryString && k !in ControlKeys[..i] :: queryString[k]
      {
        queryObj := queryObj - {ControlKeys[i]};
      }
      assert ControlKeys[..|ControlKeys|] == ControlKeys;
      var filter := map k | k in queryObj :: Str(queryObj[k]);
      if StockKey in queryObj {
        filter := filter[StockKey := Flag(queryObj[StockKey] == "true")];
      }
      assert filter == MatchFilter(queryString);
      pipeline := pipeline + [Match(filter)];
    }

    /**
     * With a `sort` parameter: splits it on commas, rejects it if any token is
     * not one of the twelve allowed forms (the pipeline then stays as it was),
     * and otherwise appends the `$sort` built token by token. Without one it
     * appends the newest-first sort.
     */
    method Sorting() returns (thrown: Option<AppError>)
      modifies this`pipeline
      ensures SortOutcome(queryString).Failure? ==>
                thrown == Some(SortOutcome(queryString).error) && pipeline == old(pipeline)
      ensures SortOutcome(queryString).Success? ==>
                thrown == None && pipeline == old(pipeline) + [SortOutcome(queryString).value]
    {
      if Given(queryString, "sort") {
        var sortingArray := Split(queryString["sort"], ',');
        var invalidFields := InvalidTokens(sortingArray, SortFields + SortFieldsDesc);
        if invalidFields != [] {
          return Some(SortError(invalidFields));
        }
        var sortBy: seq<(string, int)> := [];
        for i := 0 to |sortingArray|
          invariant sortBy == SortSpec(sortingArray[..i])
        {
          var field := sortingArray[i];
          var key, order := if |field| > 0 && field[0] == '-' then field[1..] else field,
                            if |field| > 0 && field[0] == '-' then -1 else 1;
          assert sortingArray[..i + 1][..i] == sortingArray[..i];
          sortBy := Assign(sortBy, key, order);
        }
        assert sortingArray[..|sortingArray|] == sortingArray;
        pipeline := pipeline + [Sort(sortBy)];
      } else {
        pipeline := pipeline + [Sort([("createdAt", -1)])];
      }
      thrown := None;
    }

    /**
     * With a `fields` parameter: splits it on commas, rejects it if any token is
     * not one of the five projectable fields, and otherwise appends a `$project`
     * of exactly the requested fields. Without one it appends nothing.
     */
    method FieldLimit() returns (thrown: Option<AppError>)
      modifies this`pipeline
      ensures ProjectOutcome(queryString).Failure? ==>
                thrown == Some(ProjectOutcome(queryString).error) && pipeline == old(pipeline)
      ensures ProjectOutcome(queryString).Success? ==>
                thrown == None && pipeline == old(pipeline) + ProjectOutcome(queryString).value
    {
      if Given(queryString, "fields") {
        var fieldsArray := Split(queryString["fields"], ',');
        var invalidFields := InvalidTokens(fieldsArray, ProjectFields);
        if invalidFields != [] {
          return Some(FieldError(invalidFields));
        }
        var projection: seq<string> := [];
        for i := 0 to |fieldsArray|
          invariant projection == Dedup(fieldsArray[..i])
        {
          assert fieldsArray[..i + 1][..i] == fieldsArray[..i];
          if fieldsArray[i] !in projection {
            projection := projection + [fieldsArray[i]];
          }
        }
        assert fieldsArray[..|fieldsArray|] == fieldsArray;
        pipeline := pipeline + [Project(projection)];
      }
      thrown := None;
    }

    /** Appends `$skip: (page - 1) * limit` and then `$limit: limit`. */
    method Paginate()
      modifies this`pipeline
      ensures pipeline == old(pipeline) + PageStages(queryString)
    {
      var page := NumberOr(queryString, "page", 1);
      var limit := NumberOr(queryString, "limit", 10);
      var skip := (page - 1) * limit;
      pipeline := pipeline + [Skip(skip), Limit(limit)];
    }

    method GetPipeline() returns (stages: seq<Stage>)
      ensures stages == pipeline
    {
      stages := pipeline;
    }
  }
}
