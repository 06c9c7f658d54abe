/** Name resolution: one lookup per query, each turned into a display string
    (errors included), collected into a map from identifier to name. */
module Names {
  import opened Wrappers
  import opened Queries

  /** The part of an encounter record that the name is built from. */
  datatype Period = Period(start: Option<string>)

  /** The part of a looked-up record that is read: facilities and patients
      have a `name`, encounters a `period`. `None` stands for a field that is
      absent (`undefined`). */
  datatype EntityData = EntityData(name: Option<string>, period: Option<Period>)

  /** What one request gives: it throws (`Failed`), or it answers with a
      response whose `data` may be absent. */
  datatype Fetch = Failed | Fetched(data: Option<EntityData>)

  /** The request for a kind of entity and an id; the HTTP client itself is
      outside the model. */
  type Lookup = (EntityType, string) -> Fetch

  /** The fixed string a failed lookup becomes. */
  function ErrorText(kind: EntityType): string
  {
    match kind
    case Facility => "Error fetching facility"
    case Patient => "Error fetching patient"
    case Encounter => "Error fetching encounter"
  }

  const EncounterPrefix: string := "Encounter on "

  /** JavaScript's `String(x)` for a string that may be `undefined`. */
  function Shown(s: Option<string>): string
  {
    match s
    case Some(v) => v
    case None => "undefined"
  }

  /** The three `fetch*Name` wrappers, given the outcome of their request.
      Facilities and patients show `data?.name || id`. An encounter shows
      `"Encounter on " + data?.period.start`, whose `|| id` never applies
      because the concatenation is never empty; when `data` is present but
      has no `period`, reading `.start` throws inside the `try` and the
      error text is returned. */
  function FetchedName(kind: EntityType, id: string, outcome: Fetch): (name: string)
    ensures outcome.Failed? ==> name == ErrorText(kind)
    ensures kind != Encounter && outcome.Fetched? ==>
              (name == id <==> outcome.data.None? || outcome.data.value.name in {None, Some(""), Some(id)})
    ensures kind != Encounter && outcome.Fetched? && outcome.data.Some? &&
            outcome.data.value.name.Some? && outcome.data.value.name.value != "" ==>
              name == outcome.data.value.name.value
    ensures kind == Encounter ==>
              name == ErrorText(Encounter) || (|name| >= |EncounterPrefix| && name[..|EncounterPrefix|] == EncounterPrefix)
    ensures kind == Encounter && outcome.Fetched? && outcome.data.None? ==>
              name == EncounterPrefix + "undefined"
    ensures kind == Encounter && outcome.Fetched? && outcome.data.Some? && outcome.data.value.period.Some? ==>
              name == EncounterPrefix + Shown(outcome.data.value.period.value.start)
    ensures kind == Encounter && outcome.Fetched? && outcome.data.Some? && outcome.data.value.period.None? ==>
              name == ErrorText(Encounter)
    ensures id != "" ==> name != ""
  {
    match outcome
    case Failed => ErrorText(kind)
    case Fetched(data) =>
      match kind
      case Facility | Patient =>
        if data.Some? && data.value.name.Some? && data.value.name.value != "" then data.value.name.value else id
      case Encounter =>
        if data.None? then EncounterPrefix + Shown(None)
        else if data.value.period.None? then ErrorText(Encounter)
        else EncounterPrefix + Shown(data.value.period.value.start)
  }

  /** The name stored for one query: the wrapper for the query's kind,
      applied to the outcome of that kind's request for the query's id. */
  function Resolve(q: Query, lookup: Lookup): (name: string)
    ensures lookup(q.kind, q.id).Failed? ==> name == ErrorText(q.kind)
    ensures q.id != "" ==> name != ""
  {
    FetchedName(q.kind, q.id, lookup(q.kind, q.id))
  }

  /** The record `fetchNames` builds: queries are applied in order, each
      one (re)setting the entry for its id. */
  function NamesOf(queries: seq<Query>, lookup: Lookup): (names: map<string, string>)
    ensures queries != [] ==>
              var last := queries[|queries| - 1];
              last.id in names && names[last.id] == Resolve(last, lookup)
    ensures forall id :: id in names ==> exists q :: q in queries && q.id == id
  {
    if queries == [] then map[]
    else
      var q := queries[|queries| - 1];
      NamesOf(queries[..|queries| - 1], lookup)[q.id := Resolve(q, lookup)]
  }

  /** `fetchNames`: look the queries up one after another and fill the
      record key by key. */
  method FetchNames(queries: seq<Query>, lookup: Lookup) returns (results: map<string, string>)
    ensures results == NamesOf(queries, lookup)
  {
    results := map[];
    for i := 0 to |queries|
      invariant results == NamesOf(queries[..i], lookup)
    {
      var query := queries[i];
      var name := "";
      match query.kind {
        case Facility => name := FetchedName(Facility, query.id, lookup(Facility, query.id));
        case Patient => name := FetchedName(Patient, query.id, lookup(Patient, query.id));
        case Encounter => name := FetchedName(Encounter, query.id, lookup(Encounter, query.id));
      }
      results := results[query.id := name];
      assert queries[..i + 1][..i] == queries[..i];
    }
    assert queries[..|queries|] == queries;
  }

  /** The record has exactly one key per distinct queried id. */
  lemma {:induction false} NamesKeys(queries: seq<Query>, lookup: Lookup)
    ensures NamesOf(queries, lookup).Keys == set q | q in queries :: q.id
  {
    if queries != [] {
      var init := queries[..|queries| - 1];
      NamesKeys(init, lookup);
      assert queries == init + [queries[|queries| - 1]];
    }
  }

  /** An id queried more than once keeps the name from its last query. */
  lemma {:induction false} NamesLastWins(queries: seq<Query>, lookup: Lookup, k: nat)
    requires k < |queries|
    requires forall j :: k < j < |queries| ==> queries[j].id != queries[k].id
    ensures queries[k].id in NamesOf(queries, lookup)
    ensures NamesOf(queries, lookup)[queries[k].id] == Resolve(queries[k], lookup)
  {
    if k < |queries| - 1 {
      NamesLastWins(queries[..|queries| - 1], lookup, k);
    }
  }

  /** Every stored name comes from one of the queries for that id. */
  lemma {:induction false} NamesFromQueries(queries: seq<Query>, lookup: Lookup, id: string)
    requires id in NamesOf(queries, lookup)
    ensures exists q :: q in queries && q.id == id && NamesOf(queries, lookup)[id] == Resolve(q, lookup)
  {
    var init := queries[..|queries| - 1];
    var last := queries[|queries| - 1];
    if last.id != id {
      NamesFromQueries(init, lookup, id);
      var q :| q in init && q.id == id && NamesOf(init, lookup)[id] == Resolve(q, lookup);
      assert q in queries;
    }
  }

  /** With non-empty ids, no stored name is empty, so a resolved crumb never
      falls back to the loading text. */
  lemma NamesNonEmpty(queries: seq<Query>, lookup: Lookup)
    requires forall q :: q in queries ==> q.id != ""
    ensures forall id :: id in NamesOf(queries, lookup) ==> NamesOf(queries, lookup)[id] != ""
  {
    forall id | id in NamesOf(queries, lookup)
      ensures NamesOf(queries, lookup)[id] != ""
    {
      NamesFromQueries(queries, lookup, id);
    }
  }
}
