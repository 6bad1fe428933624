/** Resolving a status option to its ids: a cache in front of the project's field list. */
module FieldCache {
  import opened Prelude

  /** A single-select option and a project field as the API returns them; absent names and ids are `None`. */
  datatype FieldOption = FieldOption(name: Option<string>, id: Option<string>)
  datatype Field = Field(name: Option<string>, id: Option<string>, options: seq<FieldOption>)

  datatype Error = NoFields | FieldMissingId | OptionNotFound | FieldNotFound

  type Answer = Result<(string, string), Error>
  type Cached = (string, map<string, string>)

  predicate Matches(field: Field, fieldName: string) {
    Lower(field.name.GetOr("")) == Lower(fieldName)
  }

  /** The first field whose name matches, ignoring case. */
  function FirstMatch(fields: seq<Field>, fieldName: string): Option<Field> {
    if fields == [] then None
    else if Matches(fields[0], fieldName) then Some(fields[0])
    else FirstMatch(fields[1..], fieldName)
  }

  /** The last option with this lower-cased name. */
  function LastNamed(options: seq<FieldOption>, nameLc: string): Option<string> {
    if options == [] then None
    else
      var last := options[|options| - 1];
      if Lower(last.name.GetOr("")) == nameLc then Some(last.id.GetOr(""))
      else LastNamed(options[..|options| - 1], nameLc)
  }

  /** The lookup without a cache. A response without a field list is `None`. */
  function Uncached(response: Option<seq<Field>>, fieldName: string, optionName: string): Answer {
    match response
    case None => Err(NoFields)
    case Some(fields) =>
      match FirstMatch(fields, fieldName)
      case None => Err(FieldNotFound)
      case Some(field) =>
        if field.id.None? then Err(FieldMissingId)
        else match LastNamed(field.options, Lower(optionName))
          case None => Err(OptionNotFound)
          case Some(optionId) => Ok((field.id.value, optionId))
  }

  /** `table` maps each lower-cased option name to the id of its last option. */
  ghost predicate Tabulates(table: map<string, string>, options: seq<FieldOption>) {
    forall name :: (name in table <==> LastNamed(options, name).Some?)
                   && (name in table ==> LastNamed(options, name) == Some(table[name]))
  }

  /** A cache entry stored under `key` says what the response says. */
  ghost predicate AgreesAt(entry: Cached, fields: seq<Field>, key: string) {
    var field := FirstMatch(fields, key);
    field.Some? && field.value.id == Some(entry.0) && Tabulates(entry.1, field.value.options)
  }

  ghost predicate Agrees(cache: map<string, Cached>, response: Option<seq<Field>>) {
    forall key :: key in cache ==> response.Some? && AgreesAt(cache[key], response.value, key)
  }

  lemma {:induction false} FirstMatchMeaning(fields: seq<Field>, fieldName: string)
    ensures FirstMatch(fields, fieldName).None? <==> forall i :: 0 <= i < |fields| ==> !Matches(fields[i], fieldName)
    ensures forall i :: 0 <= i < |fields| && Matches(fields[i], fieldName) && (forall j :: 0 <= j < i ==> !Matches(fields[j], fieldName)) ==>
              FirstMatch(fields, fieldName) == Some(fields[i])
  {
    if fields != [] {
      FirstMatchMeaning(fields[1..], fieldName);
      assert forall i :: 1 <= i < |fields| ==> fields[1..][i - 1] == fields[i];
      assert forall i :: 0 <= i < |fields[1..]| ==> fields[1..][i] == fields[i + 1];
    }
  }

  predicate SameName(a: Option<string>, b: string) {
    Lower(if a.Some? then a.value else "") == Lower(b)
  }

  /** Field `i` is the first of this name. */
  predicate FirstFieldAt(fields: seq<Field>, name: string, i: int) {
    0 <= i < |fields| && SameName(fields[i].name, name) && forall j :: 0 <= j < i ==> !SameName(fields[j].name, name)
  }

  /** Option `i` is the last of this name. */
  predicate LastOptionAt(options: seq<FieldOption>, name: string, i: int) {
    0 <= i < |options| && SameName(options[i].name, name) && forall j :: i < j < |options| ==> !SameName(options[j].name, name)
  }

  /** The answer to a call, by the response: the id of the first matching field and then the id of its last matching option,
      or the error that says what is missing. */
  ghost predicate Answers(answer: Answer, response: Option<seq<Field>>, fieldName: string, optionName: string) {
    match answer
    case Ok((fieldId, optionId)) =>
      response.Some? && exists i, j ::
        && FirstFieldAt(response.value, fieldName, i) && response.value[i].id == Some(fieldId)
        && LastOptionAt(response.value[i].options, optionName, j)
        && optionId == if response.value[i].options[j].id.Some? then response.value[i].options[j].id.value else ""
    case Err(NoFields) => response.None?
    case Err(FieldNotFound) => response.Some? && forall i :: 0 <= i < |response.value| ==> !SameName(response.value[i].name, fieldName)
    case Err(FieldMissingId) =>
      response.Some? && exists i :: FirstFieldAt(response.value, fieldName, i) && response.value[i].id.None?
    case Err(OptionNotFound) =>
      response.Some? && exists i :: (
        && FirstFieldAt(response.value, fieldName, i) && response.value[i].id.Some?
        && forall j :: 0 <= j < |response.value[i].options| ==> !SameName(response.value[i].options[j].name, optionName))
  }

  lemma {:induction false} FirstMatchAt(fields: seq<Field>, name: string) returns (i: int)
    ensures FirstMatch(fields, name).Some? ==> FirstFieldAt(fields, name, i) && FirstMatch(fields, name) == Some(fields[i])
    ensures FirstMatch(fields, name).None? ==> forall k :: 0 <= k < |fields| ==> !SameName(fields[k].name, name)
  {
    i := 0;
    if fields != [] && !SameName(fields[0].name, name) {
      var rest := fields[1..];
      var k := FirstMatchAt(rest, name);
      assert forall j :: 0 <= j < |rest| ==> rest[j] == fields[j + 1];
      assert forall j :: 1 <= j < |fields| ==> fields[j] == rest[j - 1];
      i := k + 1;
    }
  }

  lemma {:induction false} LastNamedAt(options: seq<FieldOption>, name: string) returns (i: int)
    ensures LastNamed(options, Lower(name)).Some? ==>
              LastOptionAt(options, name, i)
              && LastNamed(options, Lower(name)).value == if options[i].id.Some? then options[i].id.value else ""
    ensures LastNamed(options, Lower(name)).None? ==> forall k :: 0 <= k < |options| ==> !SameName(options[k].name, name)
  {
    i := |options| - 1;
    if options != [] && !SameName(options[|options| - 1].name, name) {
      i := LastNamedAt(options[..|options| - 1], name);
    }
  }

  /** The lookup without a cache answers so. */
  lemma UncachedAnswers(response: Option<seq<Field>>, fieldName: string, optionName: string)
    ensures Answers(Uncached(response, fieldName, optionName), response, fieldName, optionName)
  {
    if response.Some? {
      var i := FirstMatchAt(response.value, fieldName);
      if FirstMatch(response.value, fieldName).Some? {
        var j := LastNamedAt(response.value[i].options, optionName);
      }
    }
  }

  method Tabulate(options: seq<FieldOption>) returns (table: map<string, string>)
    ensures Tabulates(table, options)
  {
    table := map[];
    for n := 0 to |options|
      invariant Tabulates(table, options[..n])
    {
      var o := options[n];
      assert options[..n + 1][..n] == options[..n];
      table := table[Lower(o.name.GetOr("")) := o.id.GetOr("")];
    }
    assert options[..|options|] == options;
  }

  /** The cache holds the option. */
  predicate Hits(cache: map<string, Cached>, fieldName: string, optionName: string) {
    fieldName in cache && Lower(optionName) in cache[fieldName].1
  }

  class StatusResolver {
    var cache: map<string, Cached>

    constructor ()
      ensures cache == map[]
    {
      cache := map[];
    }

    /** One call against the project's response. A hit does not look at the response at all; a miss looks the option up
        in it and remembers the field only when the option is found. The lock is held for the lookup and again for the
        insertion; by then other calls may have left the cache as `meanwhile`. */
    method Resolve(response: Option<seq<Field>>, fieldName: string, optionName: string, meanwhile: map<string, Cached>)
      returns (answer: Answer)
      requires Agrees(cache, response) && Agrees(meanwhile, response)
      modifies this
      ensures answer == Uncached(response, fieldName, optionName)
      ensures Agrees(cache, response)
      ensures Hits(old(cache), fieldName, optionName) ==> cache == old(cache)
      ensures !Hits(old(cache), fieldName, optionName) && answer.Err? ==> cache == meanwhile
      ensures !Hits(old(cache), fieldName, optionName) && answer.Ok? ==>
                fieldName in cache && cache - {fieldName} == meanwhile - {fieldName}
    {
      var optionLc := Lower(optionName);
      if fieldName in cache && optionLc in cache[fieldName].1 {
        assert AgreesAt(cache[fieldName], response.value, fieldName);
        return Ok((cache[fieldName].0, cache[fieldName].1[optionLc]));
      }
      cache := meanwhile;
      if response.None? {
        return Err(NoFields);
      }
      var fields := response.value;
      FirstMatchMeaning(fields, fieldName);
      for n := 0 to |fields|
        invariant cache == meanwhile
        invariant forall i :: 0 <= i < n ==> !Matches(fields[i], fieldName)
      {
        var field := fields[n];
        if Matches(field, fieldName) {
          if field.id.None? {
            return Err(FieldMissingId);
          }
          var table := Tabulate(field.options);
          if optionLc !in table {
            return Err(OptionNotFound);
          }
          cache := cache[fieldName := (field.id.value, table)];
          assert AgreesAt(cache[fieldName], fields, fieldName);
          return Ok((field.id.value, table[optionLc]));
        }
      }
      return Err(FieldNotFound);
    }
  }

  /** Other calls, at the n-th release of the lock, leave a true cache true. */
  ghost predicate KeepTrue(others: (nat, map<string, Cached>) -> map<string, Cached>, response: Option<seq<Field>>) {
    forall n, cache :: Agrees(cache, response) ==> Agrees(others(n, cache), response)
  }

  /** Any sequence of calls on one resolver, hits and misses, against an unchanging response answers each call as the
      lookup without a cache does, whatever true entries other calls put into the cache meanwhile. */
  method ResolveAll(response: Option<seq<Field>>, calls: seq<(string, string)>,
                    others: (nat, map<string, Cached>) -> map<string, Cached>)
    returns (answers: seq<Answer>)
    requires KeepTrue(others, response)
    ensures |answers| == |calls|
    ensures forall i :: 0 <= i < |calls| ==> answers[i] == Uncached(response, calls[i].0, calls[i].1)
    ensures forall i :: 0 <= i < |calls| ==> Answers(answers[i], response, calls[i].0, calls[i].1)
  {
    var resolver := new StatusResolver();
    answers := [];
    for n := 0 to |calls|
      invariant |answers| == n
      invariant Agrees(resolver.cache, response)
      invariant forall i :: 0 <= i < n ==> answers[i] == Uncached(response, calls[i].0, calls[i].1)
    {
      var answer := resolver.Resolve(response, calls[n].0, calls[n].1, others(n, resolver.cache));
      answers := answers + [answer];
    }
    forall i | 0 <= i < |calls| ensures Answers(answers[i], response, calls[i].0, calls[i].1) {
      UncachedAnswers(response, calls[i].0, calls[i].1);
    }
  }
}
