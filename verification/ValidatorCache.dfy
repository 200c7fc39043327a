/** The process-wide cache of compiled JSON Schema validators. Compilation is a
    parameter. */
module ValidatorCache {
  import opened Wrappers

  type TypeId = nat
  type Schema = string
  type Validator = string
  type Time = int

  datatype Entry = Entry(validator: Validator, updatedAt: Time)

  predicate Hit(entries: map<TypeId, Entry>, id: TypeId, updatedAt: Time) {
    id in entries && entries[id].updatedAt == updatedAt
  }

  /** Every entry was compiled from the schema its row had at its timestamp. */
  ghost predicate Sound(entries: map<TypeId, Entry>, compile: Schema -> Option<Validator>,
                        schemaOf: (TypeId, Time) -> Schema) {
    forall id :: id in entries ==>
      compile(schemaOf(id, entries[id].updatedAt)) == Some(entries[id].validator)
  }

  /** The state after the phase under the write lock. */
  function AfterWrite(entries: map<TypeId, Entry>, compile: Schema -> Option<Validator>,
                      id: TypeId, schema: Schema, updatedAt: Time): map<TypeId, Entry> {
    if Hit(entries, id, updatedAt) then entries
    else match compile(schema)
         case Some(v) => entries[id := Entry(v, updatedAt)]
         case None => entries
  }

  /** What that phase answers. */
  function WriteAnswer(entries: map<TypeId, Entry>, compile: Schema -> Option<Validator>,
                       id: TypeId, schema: Schema, updatedAt: Time): Option<Validator> {
    if Hit(entries, id, updatedAt) then Some(entries[id].validator) else compile(schema)
  }

  class ValidatorCache {
    const compile: Schema -> Option<Validator>
    var entries: map<TypeId, Entry>

    constructor (compile: Schema -> Option<Validator>)
      ensures this.compile == compile && entries == map[]
    {
      this.compile, entries := compile, map[];
    }

    /** None reports a schema that does not compile; it leaves every entry alone. */
    method GetOrCompile(id: TypeId, schema: Schema, updatedAt: Time, ghost schemaOf: (TypeId, Time) -> Schema)
      returns (r: Option<Validator>)
      requires Sound(entries, compile, schemaOf) && schema == schemaOf(id, updatedAt)
      modifies this
      ensures Sound(entries, compile, schemaOf)
      ensures r == compile(schema)
      ensures entries == AfterWrite(old(entries), compile, id, schema, updatedAt)
      ensures r.None? ==> entries == old(entries)
      ensures r.Some? ==> id in entries && entries[id].validator == r.value && entries[id].updatedAt == updatedAt
      ensures forall j :: j != id ==> (j in entries <==> j in old(entries))
                                      && (j in entries ==> entries[j] == old(entries)[j])
    {
      if id in entries && entries[id].updatedAt == updatedAt {
        return Some(entries[id].validator);
      }
      var compiled := compile(schema);
      match compiled
      case Some(v) =>
        entries := entries[id := Entry(v, updatedAt)];
        r := Some(v);
      case None => r := None;
    }
  }

  // ---- Concurrent callers: a phase under the read lock, then one under the write lock ----

  datatype Caller =
    | Arrived(id: TypeId, schema: Schema, updatedAt: Time)
    | Missed(id: TypeId, schema: Schema, updatedAt: Time)
    | Answered(schema: Schema, answer: Option<Validator>)

  datatype Sys = Sys(entries: map<TypeId, Entry>, callers: map<nat, Caller>, compiles: multiset<(TypeId, Time)>)

  datatype Step =
    | Arrive(c: nat, id: TypeId, schema: Schema, updatedAt: Time)
    | ReadPhase(c: nat)
    | WritePhase(c: nat)

  predicate Enabled(s: Sys, step: Step) {
    match step
    case Arrive(c, _, _, _) => c !in s.callers
    case ReadPhase(c) => c in s.callers && s.callers[c].Arrived?
    case WritePhase(c) => c in s.callers && s.callers[c].Missed?
  }

  function Apply(s: Sys, step: Step, compile: Schema -> Option<Validator>): Sys
    requires Enabled(s, step)
  {
    match step
    case Arrive(c, id, schema, at) => s.(callers := s.callers[c := Arrived(id, schema, at)])
    case ReadPhase(c) =>
      var x := s.callers[c];
      s.(callers := s.callers[c := if Hit(s.entries, x.id, x.updatedAt)
                                   then Answered(x.schema, Some(s.entries[x.id].validator))
                                   else Missed(x.id, x.schema, x.updatedAt)])
    case WritePhase(c) =>
      var x := s.callers[c];
      Sys(AfterWrite(s.entries, compile, x.id, x.schema, x.updatedAt),
          s.callers[c := Answered(x.schema, WriteAnswer(s.entries, compile, x.id, x.schema, x.updatedAt))],
          if Hit(s.entries, x.id, x.updatedAt) then s.compiles else s.compiles + multiset{(x.id, x.updatedAt)})
  }

  /** A run in which a row's timestamp determines its schema. */
  ghost predicate Run(states: seq<Sys>, steps: seq<Step>, compile: Schema -> Option<Validator>,
                      schemaOf: (TypeId, Time) -> Schema) {
    && |states| == |steps| + 1
    && states[0] == Sys(map[], map[], multiset{})
    && forall k :: 0 <= k < |steps| ==>
         Enabled(states[k], steps[k]) && states[k + 1] == Apply(states[k], steps[k], compile)
         && (steps[k].Arrive? ==> steps[k].schema == schemaOf(steps[k].id, steps[k].updatedAt))
  }

  ghost predicate CallerOk(x: Caller, compile: Schema -> Option<Validator>, schemaOf: (TypeId, Time) -> Schema) {
    match x
    case Answered(schema, answer) => answer == compile(schema)
    case Arrived(id, schema, at) => schema == schemaOf(id, at)
    case Missed(id, schema, at) => schema == schemaOf(id, at)
  }

  lemma {:induction false} CacheStaysSound(states: seq<Sys>, steps: seq<Step>, compile: Schema -> Option<Validator>,
                                           schemaOf: (TypeId, Time) -> Schema, n: nat)
    requires Run(states, steps, compile, schemaOf) && n <= |steps|
    ensures Sound(states[n].entries, compile, schemaOf)
    ensures forall c :: c in states[n].callers ==> CallerOk(states[n].callers[c], compile, schemaOf)
  {
    if n > 0 {
      CacheStaysSound(states, steps, compile, schemaOf, n - 1);
      assert states[n - 1 + 1] == Apply(states[n - 1], steps[n - 1], compile);
    }
  }

  /** Whatever callers race, with current or outdated timestamps, each is answered with
      the compilation of the schema it passed. */
  lemma EveryCallerGetsItsOwnSchema(states: seq<Sys>, steps: seq<Step>, compile: Schema -> Option<Validator>,
                                    schemaOf: (TypeId, Time) -> Schema, n: nat, c: nat)
    requires Run(states, steps, compile, schemaOf) && n <= |steps|
    requires c in states[n].callers && states[n].callers[c].Answered?
    ensures states[n].callers[c].answer == compile(states[n].callers[c].schema)
  {
    CacheStaysSound(states, steps, compile, schemaOf, n);
    assert CallerOk(states[n].callers[c], compile, schemaOf);
  }

  /** No call for `id` passed another timestamp than `at`. */
  ghost predicate OneVersion(steps: seq<Step>, id: TypeId, at: Time) {
    forall k :: 0 <= k < |steps| && steps[k].Arrive? && steps[k].id == id ==> steps[k].updatedAt == at
  }

  lemma {:induction false} CompiledMeansCached(states: seq<Sys>, steps: seq<Step>, compile: Schema -> Option<Validator>,
                                               schemaOf: (TypeId, Time) -> Schema, id: TypeId, at: Time, n: nat)
    requires Run(states, steps, compile, schemaOf) && n <= |steps|
    requires OneVersion(steps, id, at) && compile(schemaOf(id, at)).Some?
    ensures forall c :: c in states[n].callers && !states[n].callers[c].Answered? && states[n].callers[c].id == id
                        ==> states[n].callers[c].updatedAt == at
    ensures (Hit(states[n].entries, id, at) && states[n].compiles[(id, at)] == 1)
            || (id !in states[n].entries && states[n].compiles[(id, at)] == 0)
  {
    if n > 0 {
      CompiledMeansCached(states, steps, compile, schemaOf, id, at, n - 1);
      CacheStaysSound(states, steps, compile, schemaOf, n - 1);
      assert states[n - 1 + 1] == Apply(states[n - 1], steps[n - 1], compile);
    }
  }

  /** Concurrent first uses of one schema version collapse into a single compilation. */
  lemma FirstUsesCompileOnce(states: seq<Sys>, steps: seq<Step>, compile: Schema -> Option<Validator>,
                             schemaOf: (TypeId, Time) -> Schema, id: TypeId, at: Time, n: nat)
    requires Run(states, steps, compile, schemaOf) && n <= |steps|
    requires OneVersion(steps, id, at) && compile(schemaOf(id, at)).Some?
    ensures states[n].compiles[(id, at)] <= 1
  {
    CompiledMeansCached(states, steps, compile, schemaOf, id, at, n);
  }
}
