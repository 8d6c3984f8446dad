/** What the schema resolver finds, without the resolver: the calls it makes are paths of
    steps through the schemas, each field stands at one such path, and of several fields with
    one name the last in traversal order stays
    (scripts/generate_openbao_contract_matrix.py, resolve_schema). */
module SchemaMeaning {
  import opened Text
  import opened SchemaFields

  // ----- Paths of calls

  /** From a schema to the one a nested call looks at. */
  datatype Step = AllOf(i: nat) | OneOf(i: nat) | AnyOf(i: nat) | Named(i: nat) | Item | Follow

  /** The arguments of a call, apart from its depth. */
  datatype Call = Call(schema: Schema, prefix: string, seen: set<string>)

  function FieldPath(prefix: string, name: string): string {
    if prefix == "" then name else prefix + "." + name
  }

  /** The local name behind a reference. */
  function LocalName(reference: string): Option<string> {
    if |reference| >= 21 && reference[..21] == "#/components/schemas/" then Some(reference[21..]) else None
  }

  /** The nested call behind a step, if there is one. */
  function Next(c: Call, schemas: map<string, Schema>, step: Step): Option<Call> {
    var s := c.schema;
    if s.NotObject? then None
    else if s.reference.Some? then
      var name := LocalName(s.reference.value);
      if step == Follow && name.Some? && name.value !in c.seen && name.value in schemas
      then Some(Call(schemas[name.value], c.prefix, c.seen + {name.value}))
      else None
    else
      match step
      case AllOf(i) => if i < |s.allOf| then Some(c.(schema := s.allOf[i])) else None
      case OneOf(i) => if i < |s.oneOf| then Some(c.(schema := s.oneOf[i])) else None
      case AnyOf(i) => if i < |s.anyOf| then Some(c.(schema := s.anyOf[i])) else None
      case Named(i) =>
        if i < |s.properties| && s.properties[i].value.Object?
        then Some(Call(s.properties[i].value, FieldPath(c.prefix, s.properties[i].name), c.seen))
        else None
      case Item => if s.items.Object? then Some(Call(s.items, c.prefix + "[]", c.seen)) else None
      case Follow => None
  }

  function CallAt(c: Call, schemas: map<string, Schema>, steps: seq<Step>): Option<Call>
    decreases |steps|
  {
    if steps == [] then Some(c)
    else
      var next := Next(c, schemas, steps[0]);
      if next.None? then None else CallAt(next.value, schemas, steps[1..])
  }

  /** A call `n` steps down is made and looks at its schema. */
  predicate Allows(b: Bound, n: nat) {
    b.Unlimited? || b.d + n <= 16
  }

  /** The last step names a property of the schema the other steps lead to; the field is
      required if that schema says so, and carries the property's facets. */
  ghost predicate FieldAt(c: Call, schemas: map<string, Schema>, b: Bound, steps: seq<Step>, path: string, f: Field) {
    && steps != [] && Allows(b, |steps| - 1)
    && var at, last := CallAt(c, schemas, steps[..|steps| - 1]), steps[|steps| - 1];
       at.Some? && last.Named? && FieldOf(at.value, last.i, path, f)
  }

  predicate FieldOf(c: Call, i: nat, path: string, f: Field) {
    && c.schema.Object? && c.schema.reference.None?
    && i < |c.schema.properties| && c.schema.properties[i].value.Object?
    && path == FieldPath(c.prefix, c.schema.properties[i].name)
    && f.required == (c.schema.properties[i].name in c.schema.required)
    && f.facets == c.schema.properties[i].value.facets
  }

  // ----- Traversal order

  function Class(step: Step): nat {
    match step
    case AllOf(_) => 0
    case OneOf(_) => 1
    case AnyOf(_) => 2
    case Named(_) => 3
    case Item => 4
    case Follow => 5
  }

  function Index(step: Step): nat {
    if step.Item? || step.Follow? then 0 else step.i
  }

  predicate StepBefore(x: Step, y: Step) {
    Class(x) < Class(y) || (Class(x) == Class(y) && Index(x) < Index(y))
  }

  /** A property comes before what is nested in it. */
  predicate Before(x: seq<Step>, y: seq<Step>) {
    if y == [] then false
    else if x == [] then true
    else if x[0] == y[0] then Before(x[1..], y[1..])
    else StepBefore(x[0], y[0])
  }

  /** The last of the derivations of a path. */
  ghost predicate LastAt(c: Call, schemas: map<string, Schema>, b: Bound, steps: seq<Step>, path: string, f: Field) {
    && FieldAt(c, schemas, b, steps, path, f)
    && forall other, g :: FieldAt(c, schemas, b, other, path, g) ==> other == steps || Before(other, steps)
  }

  /** The fields are exactly the last derivations. */
  ghost predicate FieldsMean(fields: map<string, Field>, c: Call, schemas: map<string, Schema>, b: Bound) {
    && (forall steps, path, f :: FieldAt(c, schemas, b, steps, path, f) ==> path in fields)
    && (forall path :: path in fields ==> exists steps :: LastAt(c, schemas, b, steps, path, fields[path]))
  }

  // ----- Derivations and first steps

  lemma {:induction false} FieldFront(c: Call, schemas: map<string, Schema>, b: Bound, st: Step, rest: seq<Step>,
                                      path: string, f: Field)
    requires rest != []
    ensures var next := Next(c, schemas, st);
            FieldAt(c, schemas, b, [st] + rest, path, f)
            <==> (next.Some? && FieldAt(next.value, schemas, Deeper(b), rest, path, f))
  {
    var steps, n := [st] + rest, |rest|;
    assert steps[..n] == [st] + rest[..n - 1] && steps[n] == rest[n - 1];
    assert ([st] + rest[..n - 1])[1..] == rest[..n - 1];
    hide Next, FieldOf;
  }

  lemma {:induction false} FieldHead(c: Call, schemas: map<string, Schema>, b: Bound, st: Step, path: string, f: Field)
    ensures FieldAt(c, schemas, b, [st], path, f) <==> Allows(b, 0) && st.Named? && FieldOf(c, st.i, path, f)
  {
    assert [st][..0] == [];
    hide FieldOf;
  }

  /** The position of a step among those of a schema without a reference. */
  function Rank(s: Schema, step: Step): nat
    requires s.Object?
  {
    match step
    case AllOf(i) => i
    case OneOf(i) => |s.allOf| + i
    case AnyOf(i) => |s.allOf| + |s.oneOf| + i
    case Named(i) => |s.allOf| + |s.oneOf| + |s.anyOf| + i
    case Item => |s.allOf| + |s.oneOf| + |s.anyOf| + |s.properties|
    case Follow => 0
  }

  predicate Possible(s: Schema, step: Step)
    requires s.Object?
  {
    match step
    case AllOf(i) => i < |s.allOf|
    case OneOf(i) => i < |s.oneOf|
    case AnyOf(i) => i < |s.anyOf|
    case Named(i) => i < |s.properties|
    case Item => true
    case Follow => false
  }

  lemma {:induction false} RankOrder(s: Schema, x: Step, y: Step)
    requires s.Object? && Possible(s, x) && Possible(s, y)
    ensures Rank(s, x) < Rank(s, y) <==> StepBefore(x, y)
    ensures Rank(s, x) == Rank(s, y) <==> x == y
  {
  }

  /** A derivation starts with a step of its schema. */
  lemma {:induction false} FirstPossible(c: Call, schemas: map<string, Schema>, b: Bound, steps: seq<Step>,
                                         path: string, f: Field)
    requires c.schema.Object? && c.schema.reference.None? && FieldAt(c, schemas, b, steps, path, f)
    ensures Possible(c.schema, steps[0])
  {
    var rest := steps[1..];
    assert steps == [steps[0]] + rest;
    if rest == [] {
      assert steps == [steps[0]];
      FieldHead(c, schemas, b, steps[0], path, f);
    } else {
      FieldFront(c, schemas, b, steps[0], rest, path, f);
    }
  }

  // ----- The fields behind a range of first steps

  ghost predicate FieldIn(c: Call, schemas: map<string, Schema>, b: Bound, lo: nat, hi: nat, steps: seq<Step>,
                          path: string, f: Field)
    requires c.schema.Object?
  {
    steps != [] && FieldAt(c, schemas, b, steps, path, f) && lo <= Rank(c.schema, steps[0]) < hi
  }

  ghost predicate LastIn(c: Call, schemas: map<string, Schema>, b: Bound, lo: nat, hi: nat, steps: seq<Step>,
                         path: string, f: Field)
    requires c.schema.Object?
  {
    && FieldIn(c, schemas, b, lo, hi, steps, path, f)
    && forall other, g :: FieldIn(c, schemas, b, lo, hi, other, path, g) ==> other == steps || Before(other, steps)
  }

  ghost predicate HasLast(c: Call, schemas: map<string, Schema>, b: Bound, lo: nat, hi: nat, path: string, f: Field)
    requires c.schema.Object?
  {
    exists steps :: LastIn(c, schemas, b, lo, hi, steps, path, f)
  }

  ghost predicate Found(fields: map<string, Field>, c: Call, schemas: map<string, Schema>, b: Bound, lo: nat, hi: nat)
    requires c.schema.Object?
  {
    && (forall steps, path, f :: FieldIn(c, schemas, b, lo, hi, steps, path, f) ==> path in fields)
    && (forall path :: path in fields ==> HasLast(c, schemas, b, lo, hi, path, fields[path]))
  }

  lemma {:induction false} FoundNone(c: Call, schemas: map<string, Schema>, b: Bound, lo: nat)
    requires c.schema.Object?
    ensures Found(map[], c, schemas, b, lo, lo)
  {
    hide FieldAt;
  }

  lemma {:induction false} LaterRange(c: Call, schemas: map<string, Schema>, b: Bound, x: seq<Step>, px: string,
                                      fx: Field, y: seq<Step>, py: string, fy: Field)
    requires c.schema.Object? && c.schema.reference.None?
    requires FieldAt(c, schemas, b, x, px, fx) && FieldAt(c, schemas, b, y, py, fy)
    requires Rank(c.schema, x[0]) < Rank(c.schema, y[0])
    ensures Before(x, y)
  {
    FirstPossible(c, schemas, b, x, px, fx);
    FirstPossible(c, schemas, b, y, py, fy);
    RankOrder(c.schema, x[0], y[0]);
    hide FieldAt, Rank, Possible, StepBefore;
  }

  /** A later range overrides an earlier one. */
  lemma {:induction false} FoundThen(x: map<string, Field>, y: map<string, Field>, c: Call, schemas: map<string,
                                     Schema>, b: Bound, lo: nat, mid: nat, hi: nat)
    requires c.schema.Object? && c.schema.reference.None? && lo <= mid <= hi
    requires Found(x, c, schemas, b, lo, mid) && Found(y, c, schemas, b, mid, hi)
    ensures Found(x + y, c, schemas, b, lo, hi)
  {
    hide FieldAt, Rank, Before, LastIn, HasLast;
    forall steps, path, f | FieldIn(c, schemas, b, lo, hi, steps, path, f) ensures path in x + y {
      assert FieldIn(c, schemas, b, lo, mid, steps, path, f) || FieldIn(c, schemas, b, mid, hi, steps, path, f);
    }
    forall path | path in x + y ensures HasLast(c, schemas, b, lo, hi, path, (x + y)[path]) {
      if path in y {
        FoundLater(x, y, c, schemas, b, lo, mid, hi, path);
      } else {
        FoundEarlier(x, y, c, schemas, b, lo, mid, hi, path);
      }
    }
  }

  lemma {:induction false} FoundLater(x: map<string, Field>, y: map<string, Field>, c: Call,
                                      schemas: map<string, Schema>, b: Bound, lo: nat, mid: nat, hi: nat, path: string)
    requires c.schema.Object? && c.schema.reference.None? && lo <= mid <= hi && path in y
    requires Found(x, c, schemas, b, lo, mid) && Found(y, c, schemas, b, mid, hi)
    ensures HasLast(c, schemas, b, lo, hi, path, y[path])
  {
    hide FieldAt, Rank, Before;
    var steps :| LastIn(c, schemas, b, mid, hi, steps, path, y[path]);
    forall other, g | FieldIn(c, schemas, b, lo, hi, other, path, g) ensures other == steps || Before(other, steps) {
      if Rank(c.schema, other[0]) < mid {
        LaterRange(c, schemas, b, other, path, g, steps, path, y[path]);
      } else {
        assert FieldIn(c, schemas, b, mid, hi, other, path, g);
      }
    }
    assert LastIn(c, schemas, b, lo, hi, steps, path, y[path]);
  }

  lemma {:induction false} FoundEarlier(x: map<string, Field>, y: map<string, Field>, c: Call,
                                        schemas: map<string, Schema>, b: Bound, lo: nat, mid: nat, hi: nat,
                                             path: string)
    requires c.schema.Object? && lo <= mid <= hi && path in x && path !in y
    requires Found(x, c, schemas, b, lo, mid) && Found(y, c, schemas, b, mid, hi)
    ensures HasLast(c, schemas, b, lo, hi, path, x[path])
  {
    hide FieldAt, Rank, Before;
    var steps :| LastIn(c, schemas, b, lo, mid, steps, path, x[path]);
    forall other, g | FieldIn(c, schemas, b, lo, hi, other, path, g) ensures other == steps || Before(other, steps) {
      assert !FieldIn(c, schemas, b, mid, hi, other, path, g);
      assert FieldIn(c, schemas, b, lo, mid, other, path, g);
    }
    assert LastIn(c, schemas, b, lo, hi, steps, path, x[path]);
  }

  // ----- One first step

  lemma {:induction false} BeforeCons(st: Step, x: seq<Step>, y: seq<Step>)
    ensures Before([st] + x, [st] + y) <==> Before(x, y)
  {
    assert ([st] + x)[1..] == x && ([st] + y)[1..] == y;
  }

  /** Every derivation in the range of one step starts with it. */
  lemma {:induction false} OnlyStep(c: Call, schemas: map<string, Schema>, b: Bound, st: Step, steps: seq<Step>,
                                    path: string, f: Field)
    requires c.schema.Object? && c.schema.reference.None? && Possible(c.schema, st)
    requires FieldIn(c, schemas, b, Rank(c.schema, st), Rank(c.schema, st) + 1, steps, path, f)
    ensures steps == [st] + steps[1..]
  {
    FirstPossible(c, schemas, b, steps, path, f);
    RankOrder(c.schema, steps[0], st);
    hide FieldAt, Rank, Possible;
  }

  /** What a nested call finds, seen from the calling schema. */
  lemma {:induction false} FoundNested(fields: map<string, Field>, c: Call, schemas: map<string, Schema>, b: Bound,
                                       st: Step, next: Call)
    requires c.schema.Object? && c.schema.reference.None? && Possible(c.schema, st) && !st.Named?
    requires Next(c, schemas, st) == Some(next) && FieldsMean(fields, next, schemas, Deeper(b))
    ensures Found(fields, c, schemas, b, Rank(c.schema, st), Rank(c.schema, st) + 1)
  {
    var lo, hi := Rank(c.schema, st), Rank(c.schema, st) + 1;
    hide FieldAt, Rank, Before, Next, Possible, LastIn;
    forall steps, path, f | FieldIn(c, schemas, b, lo, hi, steps, path, f) ensures path in fields {
      Peel(c, schemas, b, st, next, steps, path, f);
    }
    forall path | path in fields ensures HasLast(c, schemas, b, lo, hi, path, fields[path]) {
      var rest :| LastAt(next, schemas, Deeper(b), rest, path, fields[path]);
      LastNested(c, schemas, b, st, next, rest, path, fields[path]);
    }
  }

  lemma {:induction false} Peel(c: Call, schemas: map<string, Schema>, b: Bound, st: Step, next: Call, steps: seq<Step>,
                                path: string, f: Field)
    requires c.schema.Object? && c.schema.reference.None? && Possible(c.schema, st) && !st.Named?
    requires Next(c, schemas, st) == Some(next)
    requires FieldIn(c, schemas, b, Rank(c.schema, st), Rank(c.schema, st) + 1, steps, path, f)
    ensures steps == [st] + steps[1..] && FieldAt(next, schemas, Deeper(b), steps[1..], path, f)
  {
    hide FieldAt, Rank, Possible, Next;
    OnlyStep(c, schemas, b, st, steps, path, f);
    if steps[1..] == [] {
      assert steps == [st];
      FieldHead(c, schemas, b, st, path, f);
    } else {
      FieldFront(c, schemas, b, st, steps[1..], path, f);
    }
  }

  lemma {:induction false} LastNested(c: Call, schemas: map<string, Schema>, b: Bound, st: Step, next: Call,
                                      rest: seq<Step>, path: string, f: Field)
    requires c.schema.Object? && c.schema.reference.None? && Possible(c.schema, st) && !st.Named?
    requires Next(c, schemas, st) == Some(next) && LastAt(next, schemas, Deeper(b), rest, path, f)
    ensures LastIn(c, schemas, b, Rank(c.schema, st), Rank(c.schema, st) + 1, [st] + rest, path, f)
  {
    var lo, hi := Rank(c.schema, st), Rank(c.schema, st) + 1;
    assert rest != [];
    hide FieldAt, Rank, Before, Next, Possible;
    FieldFront(c, schemas, b, st, rest, path, f);
    forall other, g | FieldIn(c, schemas, b, lo, hi, other, path, g)
      ensures other == [st] + rest || Before(other, [st] + rest)
    {
      Peel(c, schemas, b, st, next, other, path, g);
      BeforeCons(st, other[1..], rest);
    }
  }

  /** A step without a nested call, other than a property with a schema, finds nothing. */
  lemma {:induction false} FoundNothing(c: Call, schemas: map<string, Schema>, b: Bound, st: Step)
    requires c.schema.Object? && c.schema.reference.None? && Possible(c.schema, st) && Next(c, schemas, st).None?
    ensures Found(map[], c, schemas, b, Rank(c.schema, st), Rank(c.schema, st) + 1)
  {
    var lo, hi := Rank(c.schema, st), Rank(c.schema, st) + 1;
    forall steps, path, f ensures !FieldIn(c, schemas, b, lo, hi, steps, path, f) {
      if FieldIn(c, schemas, b, lo, hi, steps, path, f) {
        OnlyStep(c, schemas, b, st, steps, path, f);
        if steps[1..] == [] {
          assert steps == [st];
          FieldHead(c, schemas, b, st, path, f);
        } else {
          FieldFront(c, schemas, b, st, steps[1..], path, f);
        }
      }
    }
    hide FieldAt, FieldIn, LastIn;
  }

  /** The derivations that start at a property: its own, then those nested in it. */
  lemma {:induction false} PropertySteps(c: Call, schemas: map<string, Schema>, b: Bound, i: nat, next: Call,
                                         steps: seq<Step>, path: string, f: Field)
    requires c.schema.Object? && c.schema.reference.None? && Next(c, schemas, Named(i)) == Some(next)
    requires FieldIn(c, schemas, b, Rank(c.schema, Named(i)), Rank(c.schema, Named(i)) + 1, steps, path, f)
    ensures steps == [Named(i)] + steps[1..]
    ensures if steps[1..] == [] then FieldOf(c, i, path, f)
            else FieldAt(next, schemas, Deeper(b), steps[1..], path, f)
  {
    hide FieldAt, Rank, FieldOf;
    assert Possible(c.schema, Named(i));
    OnlyStep(c, schemas, b, Named(i), steps, path, f);
    hide Next, Possible;
    if steps[1..] == [] {
      assert steps == [Named(i)];
      FieldHead(c, schemas, b, Named(i), path, f);
    } else {
      FieldFront(c, schemas, b, Named(i), steps[1..], path, f);
    }
  }

  function OwnField(c: Call, i: nat): Field
    requires c.schema.Object? && i < |c.schema.properties|
  {
    Field(c.schema.properties[i].name in c.schema.required,
          if c.schema.properties[i].value.Object? then c.schema.properties[i].value.facets else "")
  }

  lemma {:induction false} OwnFieldIs(c: Call, schemas: map<string, Schema>, i: nat, next: Call, path: string, f: Field)
    requires c.schema.Object? && c.schema.reference.None? && Next(c, schemas, Named(i)) == Some(next)
    ensures i < |c.schema.properties|
    ensures FieldOf(c, i, path, f) <==> path == next.prefix && f == OwnField(c, i)
  {
  }

  /** A property and what its schema holds. */
  lemma {:induction false} FoundProperty(nested: map<string, Field>, c: Call, schemas: map<string, Schema>, b: Bound,
                                         i: nat, next: Call)
    requires c.schema.Object? && c.schema.reference.None? && Allows(b, 0) && Next(c, schemas, Named(i)) == Some(next)
    requires FieldsMean(nested, next, schemas, Deeper(b)) && i < |c.schema.properties|
    ensures Found(map[next.prefix := OwnField(c, i)] + nested, c, schemas, b, Rank(c.schema, Named(i)),
                  Rank(c.schema, Named(i)) + 1)
  {
    var lo, hi := Rank(c.schema, Named(i)), Rank(c.schema, Named(i)) + 1;
    var fields := map[next.prefix := OwnField(c, i)] + nested;
    OwnFieldIs(c, schemas, i, next, next.prefix, OwnField(c, i));
    hide FieldAt, Rank, Before, Next, LastIn, FieldOf, OwnField, Allows;
    forall steps, path, f | FieldIn(c, schemas, b, lo, hi, steps, path, f) ensures path in fields {
      PropertySteps(c, schemas, b, i, next, steps, path, f);
      OwnFieldIs(c, schemas, i, next, path, f);
    }
    forall path | path in fields ensures HasLast(c, schemas, b, lo, hi, path, fields[path]) {
      if path in nested {
        var rest :| LastAt(next, schemas, Deeper(b), rest, path, nested[path]);
        LastInProperty(c, schemas, b, i, next, rest, path, nested[path]);
      } else {
        LastOwn(nested, c, schemas, b, i, next);
      }
    }
  }

  lemma {:induction false} LastInProperty(c: Call, schemas: map<string, Schema>, b: Bound, i: nat, next: Call,
                                          rest: seq<Step>, path: string, f: Field)
    requires c.schema.Object? && c.schema.reference.None? && Next(c, schemas, Named(i)) == Some(next)
    requires LastAt(next, schemas, Deeper(b), rest, path, f)
    ensures HasLast(c, schemas, b, Rank(c.schema, Named(i)), Rank(c.schema, Named(i)) + 1, path, f)
  {
    var lo, hi, steps := Rank(c.schema, Named(i)), Rank(c.schema, Named(i)) + 1, [Named(i)] + rest;
    assert rest != [];
    hide FieldAt, Rank, Next, FieldOf;
    FieldFront(c, schemas, b, Named(i), rest, path, f);
    forall other, g | FieldIn(c, schemas, b, lo, hi, other, path, g) ensures other == steps || Before(other, steps) {
      PropertySteps(c, schemas, b, i, next, other, path, g);
      BeforeCons(Named(i), other[1..], rest);
      hide Before;
      if other[1..] == [] {
        assert Before([], rest) by { BeforeSome(rest); }
      }
    }
    hide Before;
    assert LastIn(c, schemas, b, lo, hi, steps, path, f);
  }

  lemma {:induction false} BeforeSome(rest: seq<Step>)
    requires rest != []
    ensures Before([], rest)
  {
  }

  lemma {:induction false} LastOwn(nested: map<string, Field>, c: Call, schemas: map<string, Schema>, b: Bound, i: nat,
                                   next: Call)
    requires c.schema.Object? && c.schema.reference.None? && Allows(b, 0) && Next(c, schemas, Named(i)) == Some(next)
    requires FieldsMean(nested, next, schemas, Deeper(b)) && i < |c.schema.properties| && next.prefix !in nested
    ensures HasLast(c, schemas, b, Rank(c.schema, Named(i)), Rank(c.schema, Named(i)) + 1, next.prefix, OwnField(c, i))
  {
    var lo, hi, steps := Rank(c.schema, Named(i)), Rank(c.schema, Named(i)) + 1, [Named(i)];
    OwnFieldIs(c, schemas, i, next, next.prefix, OwnField(c, i));
    FieldHead(c, schemas, b, Named(i), next.prefix, OwnField(c, i));
    hide FieldAt, Rank, Next, FieldOf, Before, OwnField;
    forall other, g | FieldIn(c, schemas, b, lo, hi, other, next.prefix, g)
      ensures other == steps || Before(other, steps)
    {
      PropertySteps(c, schemas, b, i, next, other, next.prefix, g);
    }
    assert LastIn(c, schemas, b, lo, hi, steps, next.prefix, OwnField(c, i));
  }

  // ----- Review marks

  predicate LocalMark(c: Call, mark: Review) {
    match mark
    case DepthLimit => false
    case NonObject => c.schema.NotObject?
    case External => c.schema.Object? && c.schema.reference.Some? && LocalName(c.schema.reference.value).None?
    case CyclicOrMissing => false
    case Malformed =>
      && c.schema.Object? && c.schema.reference.None?
      && exists i :: 0 <= i < |c.schema.properties| && c.schema.properties[i].value.NotObject?
  }

  /** A call with a mark of its own: no schema, a reference out of the document, one that is
      missing or in use, a property without a schema, or a call below the limit. */
  ghost predicate MarkAt(c: Call, schemas: map<string, Schema>, b: Bound, steps: seq<Step>, mark: Review) {
    var at := CallAt(c, schemas, steps);
    && at.Some?
    && if mark.DepthLimit? then b.Depth? && b.d + |steps| > 16
       else Allows(b, |steps|) && (LocalMark(at.value, mark) || (mark.CyclicOrMissing? && Dangling(at.value, schemas)))
  }

  predicate Dangling(c: Call, schemas: map<string, Schema>) {
    && c.schema.Object? && c.schema.reference.Some?
    && var name := LocalName(c.schema.reference.value);
       name.Some? && (name.value in c.seen || name.value !in schemas)
  }

  ghost predicate MarksMean(review: set<Review>, c: Call, schemas: map<string, Schema>, b: Bound) {
    forall mark :: mark in review <==> exists steps :: MarkAt(c, schemas, b, steps, mark)
  }

  lemma {:induction false} MarkFront(c: Call, schemas: map<string, Schema>, b: Bound, st: Step, rest: seq<Step>,
                                     mark: Review)
    ensures var next := Next(c, schemas, st);
            MarkAt(c, schemas, b, [st] + rest, mark)
            <==> (next.Some? && MarkAt(next.value, schemas, Deeper(b), rest, mark))
  {
    assert ([st] + rest)[1..] == rest;
    hide Next, LocalMark, Dangling;
  }

  /** Some call behind the first steps in a range has the mark, or a property in it is malformed. */
  ghost predicate MarkBehind(c: Call, schemas: map<string, Schema>, b: Bound, lo: nat, hi: nat, mark: Review)
    requires c.schema.Object?
  {
    || (exists steps :: MarkFrom(c, schemas, b, lo, hi, steps, mark))
    || (mark.Malformed? && exists i :: 0 <= i < |c.schema.properties| && c.schema.properties[i].value.NotObject?
                                       && lo <= Rank(c.schema, Named(i)) < hi)
  }

  ghost predicate MarkFrom(c: Call, schemas: map<string, Schema>, b: Bound, lo: nat, hi: nat, steps: seq<Step>,
                           mark: Review)
    requires c.schema.Object?
  {
    steps != [] && MarkAt(c, schemas, b, steps, mark) && lo <= Rank(c.schema, steps[0]) < hi
  }

  ghost predicate MarksIn(review: set<Review>, c: Call, schemas: map<string, Schema>, b: Bound, lo: nat, hi: nat)
    requires c.schema.Object?
  {
    forall mark :: mark in review <==> MarkBehind(c, schemas, b, lo, hi, mark)
  }

  lemma {:induction false} MarksNone(c: Call, schemas: map<string, Schema>, b: Bound, lo: nat)
    requires c.schema.Object?
    ensures MarksIn({}, c, schemas, b, lo, lo)
  {
    hide MarkAt;
  }

  lemma {:induction false} BehindSplit(c: Call, schemas: map<string, Schema>, b: Bound, lo: nat, mid: nat, hi: nat,
                                       mark: Review)
    requires c.schema.Object? && lo <= mid <= hi
    ensures MarkBehind(c, schemas, b, lo, hi, mark)
        <==> MarkBehind(c, schemas, b, lo, mid, mark) || MarkBehind(c, schemas, b, mid, hi, mark)
  {
    hide MarkAt, Rank;
    if steps :| MarkFrom(c, schemas, b, lo, hi, steps, mark) {
      assert MarkFrom(c, schemas, b, lo, mid, steps, mark) || MarkFrom(c, schemas, b, mid, hi, steps, mark);
    }
    if steps :| MarkFrom(c, schemas, b, lo, mid, steps, mark) {
      assert MarkFrom(c, schemas, b, lo, hi, steps, mark);
    }
    if steps :| MarkFrom(c, schemas, b, mid, hi, steps, mark) {
      assert MarkFrom(c, schemas, b, lo, hi, steps, mark);
    }
  }

  lemma {:induction false} MarksThen(x: set<Review>, y: set<Review>, c: Call, schemas: map<string, Schema>, b: Bound,
                                     lo: nat, mid: nat, hi: nat)
    requires c.schema.Object? && lo <= mid <= hi
    requires MarksIn(x, c, schemas, b, lo, mid) && MarksIn(y, c, schemas, b, mid, hi)
    ensures MarksIn(x + y, c, schemas, b, lo, hi)
  {
    hide MarkBehind;
    forall mark ensures mark in x + y <==> MarkBehind(c, schemas, b, lo, hi, mark) {
      BehindSplit(c, schemas, b, lo, mid, hi, mark);
    }
  }

  lemma {:induction false} MarkedStep(c: Call, schemas: map<string, Schema>, b: Bound, steps: seq<Step>, mark: Review)
    requires c.schema.Object? && c.schema.reference.None? && steps != [] && MarkAt(c, schemas, b, steps, mark)
    ensures Possible(c.schema, steps[0]) && Next(c, schemas, steps[0]).Some?
  {
    hide LocalMark, Dangling, Allows;
  }

  /** The marks behind one first step are those of its nested call. */
  lemma {:induction false} MarksNested(review: set<Review>, c: Call, schemas: map<string, Schema>, b: Bound, st: Step,
                                       next: Call)
    requires c.schema.Object? && c.schema.reference.None? && Possible(c.schema, st)
    requires Next(c, schemas, st) == Some(next) && MarksMean(review, next, schemas, Deeper(b))
    ensures MarksIn(review, c, schemas, b, Rank(c.schema, st), Rank(c.schema, st) + 1)
  {
    var lo, hi := Rank(c.schema, st), Rank(c.schema, st) + 1;
    forall i | 0 <= i < |c.schema.properties| && lo <= Rank(c.schema, Named(i)) < hi
      ensures c.schema.properties[i].value.Object?
    {
      RankOrder(c.schema, Named(i), st);
    }
    hide MarkAt, Next;
    forall mark ensures mark in review <==> MarkBehind(c, schemas, b, lo, hi, mark) {
      if steps :| MarkFrom(c, schemas, b, lo, hi, steps, mark) {
        MarkedStep(c, schemas, b, steps, mark);
        RankOrder(c.schema, steps[0], st);
        assert steps == [st] + steps[1..];
        MarkFront(c, schemas, b, st, steps[1..], mark);
      }
      if rest :| MarkAt(next, schemas, Deeper(b), rest, mark) {
        MarkFront(c, schemas, b, st, rest, mark);
        assert MarkFrom(c, schemas, b, lo, hi, [st] + rest, mark);
      }
    }
  }

  /** Behind a step without a nested call there is a mark only for a malformed property. */
  lemma {:induction false} MarksAlone(c: Call, schemas: map<string, Schema>, b: Bound, st: Step)
    requires c.schema.Object? && c.schema.reference.None? && Possible(c.schema, st) && Next(c, schemas, st).None?
    ensures MarksIn(if st.Named? then {Malformed} else {}, c, schemas, b, Rank(c.schema, st), Rank(c.schema, st) + 1)
  {
    var lo, hi := Rank(c.schema, st), Rank(c.schema, st) + 1;
    assert st.Named? ==> c.schema.properties[st.i].value.NotObject?;
    forall i | 0 <= i < |c.schema.properties| && lo <= Rank(c.schema, Named(i)) < hi ensures st == Named(i) {
      RankOrder(c.schema, Named(i), st);
    }
    hide MarkAt, Next;
    forall mark, steps ensures !MarkFrom(c, schemas, b, lo, hi, steps, mark) {
      if MarkFrom(c, schemas, b, lo, hi, steps, mark) {
        MarkedStep(c, schemas, b, steps, mark);
        RankOrder(c.schema, steps[0], st);
      }
    }
  }

  // ----- Too many fields

  /** More than 8192 paths have a derivation. */
  ghost predicate TooMany(c: Call, schemas: map<string, Schema>, b: Bound) {
    exists paths: set<string> :: |paths| > 8192 && AllDerived(c, schemas, b, paths)
  }

  ghost predicate AllDerived(c: Call, schemas: map<string, Schema>, b: Bound, paths: set<string>) {
    forall path :: path in paths ==> Derived(c, schemas, b, path)
  }

  ghost predicate Derived(c: Call, schemas: map<string, Schema>, b: Bound, path: string) {
    exists steps, f :: FieldAt(c, schemas, b, steps, path, f)
  }

  /** Too many fields in a nested call are too many in the call. */
  lemma {:induction false} TooManyUp(c: Call, schemas: map<string, Schema>, b: Bound, st: Step, next: Call)
    requires Next(c, schemas, st) == Some(next) && TooMany(next, schemas, Deeper(b))
    ensures TooMany(c, schemas, b)
  {
    hide FieldAt, Next;
    var paths: set<string> :| |paths| > 8192 && AllDerived(next, schemas, Deeper(b), paths);
    forall path | path in paths ensures Derived(c, schemas, b, path) {
      assert Derived(next, schemas, Deeper(b), path);
      var steps, f :| FieldAt(next, schemas, Deeper(b), steps, path, f);
      assert steps != [] by { DerivationSome(next, schemas, Deeper(b), steps, path, f); }
      FieldFront(c, schemas, b, st, steps, path, f);
      assert FieldAt(c, schemas, b, [st] + steps, path, f);
    }
    assert AllDerived(c, schemas, b, paths);
  }

  lemma {:induction false} DerivationSome(c: Call, schemas: map<string, Schema>, b: Bound, steps: seq<Step>,
                                          path: string, f: Field)
    requires FieldAt(c, schemas, b, steps, path, f)
    ensures steps != []
  {
  }

  lemma {:induction false} NotTooMany(fields: map<string, Field>, c: Call, schemas: map<string, Schema>, b: Bound)
    requires FieldsMean(fields, c, schemas, b) && |fields| <= 8192
    ensures !TooMany(c, schemas, b)
  {
    hide FieldAt, LastAt;
    forall paths: set<string> | AllDerived(c, schemas, b, paths) ensures |paths| <= 8192 {
      forall path | path in paths ensures path in fields {
        assert Derived(c, schemas, b, path);
      }
      SubsetSize(paths, fields.Keys);
      assert |fields| == |fields.Keys|;
    }
  }

  lemma {:induction false} FoundTooMany(fields: map<string, Field>, c: Call, schemas: map<string, Schema>, b: Bound,
                                        lo: nat, hi: nat)
    requires c.schema.Object? && Found(fields, c, schemas, b, lo, hi) && |fields| > 8192
    ensures TooMany(c, schemas, b)
  {
    hide FieldAt;
    forall path | path in fields.Keys ensures Derived(c, schemas, b, path) {
      var steps :| LastIn(c, schemas, b, lo, hi, steps, path, fields[path]);
    }
    assert |fields| == |fields.Keys|;
    assert AllDerived(c, schemas, b, fields.Keys);
  }

  // ----- The resolver's outcome

  /** The meaning of an outcome, for the call that returns it. */
  ghost predicate Means(o: Outcome, c: Call, schemas: map<string, Schema>, b: Bound) {
    match o
    case Refused => TooMany(c, schemas, b)
    case Resolved(fields, review) =>
      && FieldsMean(fields, c, schemas, b) && |fields| <= 8192
      && MarksMean(review, c, schemas, b)
  }

  /** The same for a part of the calls. */
  ghost predicate MeansIn(o: Outcome, c: Call, schemas: map<string, Schema>, b: Bound, lo: nat, hi: nat)
    requires c.schema.Object?
  {
    match o
    case Refused => TooMany(c, schemas, b)
    case Resolved(fields, review) => Found(fields, c, schemas, b, lo, hi) && MarksIn(review, c, schemas, b, lo, hi)
  }

  lemma {:induction false} MeansThen(x: Outcome, y: Outcome, c: Call, schemas: map<string, Schema>, b: Bound, lo: nat,
                                     mid: nat, hi: nat)
    requires c.schema.Object? && c.schema.reference.None? && lo <= mid <= hi
    requires MeansIn(x, c, schemas, b, lo, mid) && MeansIn(y, c, schemas, b, mid, hi)
    ensures MeansIn(Then(x, y), c, schemas, b, lo, hi)
  {
    hide Found, MarksIn, TooMany;
    if x.Resolved? && y.Resolved? {
      FoundThen(x.fields, y.fields, c, schemas, b, lo, mid, hi);
      MarksThen(x.review, y.review, c, schemas, b, lo, mid, hi);
    }
  }

  lemma {:induction false} MeansNested(o: Outcome, c: Call, schemas: map<string, Schema>, b: Bound, st: Step,
                                       next: Call)
    requires c.schema.Object? && c.schema.reference.None? && Possible(c.schema, st) && !st.Named?
    requires Next(c, schemas, st) == Some(next) && Means(o, next, schemas, Deeper(b))
    ensures MeansIn(o, c, schemas, b, Rank(c.schema, st), Rank(c.schema, st) + 1)
  {
    hide Found, MarksIn, TooMany, Rank, Next, Possible, FieldsMean, MarksMean;
    if o.Refused? {
      TooManyUp(c, schemas, b, st, next);
    } else {
      FoundNested(o.fields, c, schemas, b, st, next);
      MarksNested(o.review, c, schemas, b, st, next);
    }
  }

  /** The step to the composition at position `k`. */
  function CompositionStep(s: Schema, k: nat): Step
    requires s.Object? && k < |Compositions(s)|
  {
    if k < |s.allOf| then AllOf(k)
    else if k < |s.allOf| + |s.oneOf| then OneOf(k - |s.allOf|)
    else AnyOf(k - |s.allOf| - |s.oneOf|)
  }

  lemma {:induction false} CompositionNext(c: Call, schemas: map<string, Schema>, k: nat)
    requires c.schema.Object? && c.schema.reference.None? && k < |Compositions(c.schema)|
    ensures var st := CompositionStep(c.schema, k);
            && Possible(c.schema, st) && Rank(c.schema, st) == k && !st.Named?
            && Next(c, schemas, st) == Some(c.(schema := Compositions(c.schema)[k]))
  {
  }

  /** The last derivations, the marks, and a refusal for too many fields: what a call
      returns, from its arguments alone. */
  lemma {:induction false} ResolveMeans(c: Call, schemas: map<string, Schema>, b: Bound)
    ensures Means(Resolve(c.schema, schemas, c.prefix, c.seen, b), c, schemas, b)
    decreases |schemas.Keys - c.seen|, c.schema, 2
  {
    hide ResolveNode, ResolveReference, SchemaName, Means, MAX_DEPTH;
    if b.Depth? && b.d > 16 {
      LeafMeans(c, schemas, b, DepthLimit);
      assert MAX_DEPTH == 16 by { DepthIs(); }
    } else if c.schema.NotObject? {
      assert MAX_DEPTH == 16 by { DepthIs(); }
      LeafMeans(c, schemas, b, NonObject);
    } else if c.schema.reference.Some? {
      assert MAX_DEPTH == 16 by { DepthIs(); }
      ReferenceMeans(c, schemas, b);
    } else {
      assert MAX_DEPTH == 16 by { DepthIs(); }
      NodeMeans(c, schemas, b);
    }
  }

  lemma {:induction false} DepthIs()
    ensures MAX_DEPTH == 16
  {
  }

  // ----- Calls that end at once

  lemma {:induction false} NoFieldHere(c: Call, schemas: map<string, Schema>, b: Bound, steps: seq<Step>, path: string,
                                       f: Field)
    requires || !Allows(b, 0)
             || ((c.schema.NotObject? || c.schema.reference.Some?) && forall st :: Next(c, schemas, st).None?)
    ensures !FieldAt(c, schemas, b, steps, path, f)
  {
    if steps != [] && Allows(b, 0) {
      assert steps == [steps[0]] + steps[1..];
      if steps[1..] == [] {
        assert steps == [steps[0]];
        FieldHead(c, schemas, b, steps[0], path, f);
      } else {
        FieldFront(c, schemas, b, steps[0], steps[1..], path, f);
      }
    }
  }

  /** A call with one mark of its own and no nested call. */
  lemma {:induction false} StuckMeans(c: Call, schemas: map<string, Schema>, b: Bound, mark: Review)
    requires || !Allows(b, 0)
             || ((c.schema.NotObject? || c.schema.reference.Some?) && forall st :: Next(c, schemas, st).None?)
    requires MarkAt(c, schemas, b, [], mark)
    requires forall other, steps :: MarkAt(c, schemas, b, steps, other) ==> other == mark
    ensures Means(Mark(mark), c, schemas, b)
  {
    forall steps, path, f ensures !FieldAt(c, schemas, b, steps, path, f) {
      NoFieldHere(c, schemas, b, steps, path, f);
    }
    hide FieldAt, MarkAt, Next;
  }

  /** Without a nested call only the call itself can have a mark. */
  lemma {:induction false} MarkHere(c: Call, schemas: map<string, Schema>, b: Bound, steps: seq<Step>, mark: Review)
    requires MarkAt(c, schemas, b, steps, mark) && forall st :: Next(c, schemas, st).None?
    ensures steps == []
  {
  }

  lemma {:induction false} LeafMeans(c: Call, schemas: map<string, Schema>, b: Bound, mark: Review)
    requires if mark.DepthLimit? then !Allows(b, 0) else mark.NonObject? && Allows(b, 0) && c.schema.NotObject?
    ensures Means(Mark(mark), c, schemas, b)
  {
    forall other, steps | MarkAt(c, schemas, b, steps, other) ensures other == mark {
      if mark.NonObject? {
        MarkHere(c, schemas, b, steps, other);
      }
    }
    StuckMeans(c, schemas, b, mark);
  }

  lemma {:induction false} NameSame(reference: string)
    ensures SchemaName(reference) == LocalName(reference)
  {
    assert |MARKER| == 21;
  }

  lemma {:induction false} ReferenceMeans(c: Call, schemas: map<string, Schema>, b: Bound)
    requires Allows(b, 0) && c.schema.Object? && c.schema.reference.Some?
    ensures Means(ResolveReference(c.schema, SchemaName(c.schema.reference.value), schemas, c.prefix, c.seen,
                                   Deeper(b)),
                  c, schemas, b)
    decreases |schemas.Keys - c.seen|, c.schema, 1
  {
    hide Resolve, Means, LocalName, SchemaName;
    var name := LocalName(c.schema.reference.value);
    NameSame(c.schema.reference.value);
    if name.None? {
      BadReference(c, schemas, b, External);
    } else if name.value in c.seen || name.value !in schemas {
      BadReference(c, schemas, b, CyclicOrMissing);
    } else {
      var next := Call(schemas[name.value], c.prefix, c.seen + {name.value});
      FewerUnseen(schemas, c.seen, name.value);
      ResolveMeans(next, schemas, Deeper(b));
      FollowMeans(Resolve(next.schema, schemas, next.prefix, next.seen, Deeper(b)), c, schemas, b, next);
    }
  }

  lemma {:induction false} BadReference(c: Call, schemas: map<string, Schema>, b: Bound, mark: Review)
    requires Allows(b, 0) && c.schema.Object? && c.schema.reference.Some?
    requires var name := LocalName(c.schema.reference.value);
             if mark.External? then name.None?
             else mark.CyclicOrMissing? && name.Some? && (name.value in c.seen || name.value !in schemas)
    ensures Means(Mark(mark), c, schemas, b)
  {
    hide LocalName;
    assert forall st :: Next(c, schemas, st).None?;
    forall other, steps | MarkAt(c, schemas, b, steps, other) ensures other == mark {
      MarkHere(c, schemas, b, steps, other);
    }
    StuckMeans(c, schemas, b, mark);
  }

  /** Behind a followed reference everything is that of the named schema. */
  lemma {:induction false} FollowMeans(o: Outcome, c: Call, schemas: map<string, Schema>, b: Bound, next: Call)
    requires Allows(b, 0) && c.schema.Object? && c.schema.reference.Some?
    requires Next(c, schemas, Follow) == Some(next) && Means(o, next, schemas, Deeper(b))
    ensures Means(o, c, schemas, b)
  {
    hide FieldsMean, MarksMean, TooMany, Next;
    if o.Refused? {
      TooManyUp(c, schemas, b, Follow, next);
    } else {
      FollowFields(o.fields, c, schemas, b, next);
      FollowMarks(o.review, c, schemas, b, next);
    }
  }

  lemma {:induction false} FollowOnly(c: Call, schemas: map<string, Schema>, b: Bound, next: Call, steps: seq<Step>,
                                      path: string, f: Field)
    requires c.schema.Object? && c.schema.reference.Some? && Next(c, schemas, Follow) == Some(next)
    requires FieldAt(c, schemas, b, steps, path, f)
    ensures steps != [] && steps == [Follow] + steps[1..] && FieldAt(next, schemas, Deeper(b), steps[1..], path, f)
  {
    assert steps == [steps[0]] + steps[1..];
    assert [steps[0]] + [] == [steps[0]];
    FieldHead(c, schemas, b, steps[0], path, f);
    FieldFront(c, schemas, b, steps[0], steps[1..], path, f);
  }

  lemma {:induction false} FollowFields(fields: map<string, Field>, c: Call, schemas: map<string, Schema>, b: Bound,
                                        next: Call)
    requires c.schema.Object? && c.schema.reference.Some? && Next(c, schemas, Follow) == Some(next)
    requires FieldsMean(fields, next, schemas, Deeper(b))
    ensures FieldsMean(fields, c, schemas, b)
  {
    hide FieldAt, Before, Next;
    forall steps, path, f | FieldAt(c, schemas, b, steps, path, f) ensures path in fields {
      FollowOnly(c, schemas, b, next, steps, path, f);
    }
    forall path | path in fields ensures exists steps :: LastAt(c, schemas, b, steps, path, fields[path]) {
      var rest :| LastAt(next, schemas, Deeper(b), rest, path, fields[path]);
      var steps := [Follow] + rest;
      assert rest != [] by { DerivationSome(next, schemas, Deeper(b), rest, path, fields[path]); }
      FieldFront(c, schemas, b, Follow, rest, path, fields[path]);
      forall other, g | FieldAt(c, schemas, b, other, path, g) ensures other == steps || Before(other, steps) {
        FollowOnly(c, schemas, b, next, other, path, g);
        BeforeCons(Follow, other[1..], rest);
      }
      assert LastAt(c, schemas, b, steps, path, fields[path]);
    }
  }

  lemma {:induction false} FollowMarks(review: set<Review>, c: Call, schemas: map<string, Schema>, b: Bound, next: Call)
    requires Allows(b, 0) && c.schema.Object? && c.schema.reference.Some?
    requires Next(c, schemas, Follow) == Some(next) && MarksMean(review, next, schemas, Deeper(b))
    ensures MarksMean(review, c, schemas, b)
  {
    forall mark ensures !MarkAt(c, schemas, b, [], mark) {}
    assert forall st :: st != Follow ==> Next(c, schemas, st).None?;
    hide MarkAt, Next;
    forall mark ensures mark in review <==> exists steps :: MarkAt(c, schemas, b, steps, mark) {
      if steps :| MarkAt(c, schemas, b, steps, mark) {
        assert steps == [steps[0]] + steps[1..];
        MarkFront(c, schemas, b, steps[0], steps[1..], mark);
      }
      if rest :| MarkAt(next, schemas, Deeper(b), rest, mark) {
        MarkFront(c, schemas, b, Follow, rest, mark);
      }
    }
  }

  // ----- A schema without a reference

  lemma {:induction false} AllMeans(c: Call, schemas: map<string, Schema>, b: Bound, k: nat)
    requires Allows(b, 0) && c.schema.Object? && c.schema.reference.None? && k <= |Compositions(c.schema)|
    requires Inside(Compositions(c.schema), c.schema)
    ensures MeansIn(ResolveAll(c.schema, Compositions(c.schema)[k..], schemas, c.prefix, c.seen, Deeper(b)), c,
                    schemas, b, k, |Compositions(c.schema)|)
    decreases |schemas.Keys - c.seen|, c.schema, 0, |Compositions(c.schema)| - k
  {
    hide Resolve, Compositions, MeansIn, Means, Then, Possible, Next, Rank;
    var list := Compositions(c.schema);
    if k == |list| {
      assert list[k..] == [];
      NothingMeans(c, schemas, b, k);
    } else {
      assert list[k..][0] == list[k] && list[k..][1..] == list[k + 1..];
      var next := c.(schema := list[k]);
      ResolveMeans(next, schemas, Deeper(b));
      AllMeans(c, schemas, b, k + 1);
      CompositionNext(c, schemas, k);
      var o := Resolve(next.schema, schemas, next.prefix, next.seen, Deeper(b));
      MeansNested(o, c, schemas, b, CompositionStep(c.schema, k), next);
      MeansThen(o, ResolveAll(c.schema, list[k + 1..], schemas, c.prefix, c.seen, Deeper(b)), c, schemas, b, k, k + 1,
                |list|);
    }
  }

  lemma {:induction false} NothingMeans(c: Call, schemas: map<string, Schema>, b: Bound, k: nat)
    requires c.schema.Object?
    ensures MeansIn(Nothing(), c, schemas, b, k, k)
  {
    hide Found, MarksIn;
    FoundNone(c, schemas, b, k);
    MarksNone(c, schemas, b, k);
  }

  /** One property. */
  lemma {:induction false} PropertyMeans(c: Call, schemas: map<string, Schema>, b: Bound, i: nat)
    requires Allows(b, 0) && c.schema.Object? && c.schema.reference.None? && i < |c.schema.properties|
    requires c.schema.properties[i].value < c.schema
    ensures MeansIn(ResolveProperty(c.schema, c.schema.properties[i], schemas, c.prefix, c.seen, Deeper(b)), c,
                    schemas, b, Rank(c.schema, Named(i)), Rank(c.schema, Named(i)) + 1)
    decreases |schemas.Keys - c.seen|, c.schema, 0, 0
  {
    hide Resolve, MeansIn, Means, Rank;
    var p := c.schema.properties[i];
    if p.value.NotObject? {
      MalformedMeans(c, schemas, b, i);
    } else {
      var next := Call(p.value, FieldPath(c.prefix, p.name), c.seen);
      assert Next(c, schemas, Named(i)) == Some(next);
      assert PropertyPath(c.prefix, p.name) == next.prefix;
      OwnIs(c, schemas, i, next);
      hide Next;
      ResolveMeans(next, schemas, Deeper(b));
      hide OwnField;
      NamedMeans(Resolve(p.value, schemas, next.prefix, c.seen, Deeper(b)), c, schemas, b, i, next);
    }
  }

  lemma {:induction false} MalformedMeans(c: Call, schemas: map<string, Schema>, b: Bound, i: nat)
    requires c.schema.Object? && c.schema.reference.None? && i < |c.schema.properties|
    requires c.schema.properties[i].value.NotObject?
    ensures MeansIn(Mark(Malformed), c, schemas, b, Rank(c.schema, Named(i)), Rank(c.schema, Named(i)) + 1)
  {
    hide Found, MarksIn, Rank;
    FoundNothing(c, schemas, b, Named(i));
    MarksAlone(c, schemas, b, Named(i));
  }

  lemma {:induction false} NamedMeans(o: Outcome, c: Call, schemas: map<string, Schema>, b: Bound, i: nat, next: Call)
    requires Allows(b, 0) && c.schema.Object? && c.schema.reference.None? && i < |c.schema.properties|
    requires Next(c, schemas, Named(i)) == Some(next) && Means(o, next, schemas, Deeper(b))
    ensures MeansIn(Then(Resolved(map[next.prefix := OwnField(c, i)], {}), o), c, schemas, b, Rank(c.schema, Named(i)),
                    Rank(c.schema, Named(i)) + 1)
  {
    hide *;
    ThenOwn(next.prefix, OwnField(c, i), o);
    if o.Refused? {
      NamedRefused(c, schemas, b, i, next);
    } else {
      NamedResolved(o, c, schemas, b, i, next);
    }
  }

  lemma {:induction false} NamedRefused(c: Call, schemas: map<string, Schema>, b: Bound, i: nat, next: Call)
    requires c.schema.Object? && Next(c, schemas, Named(i)) == Some(next) && Means(Refused, next, schemas, Deeper(b))
    ensures MeansIn(Refused, c, schemas, b, Rank(c.schema, Named(i)), Rank(c.schema, Named(i)) + 1)
  {
    hide TooMany, Next, Rank;
    TooManyUp(c, schemas, b, Named(i), next);
  }

  lemma {:induction false} NamedResolved(o: Outcome, c: Call, schemas: map<string, Schema>, b: Bound, i: nat,
                                         next: Call)
    requires Allows(b, 0) && c.schema.Object? && c.schema.reference.None? && i < |c.schema.properties|
    requires Next(c, schemas, Named(i)) == Some(next) && o.Resolved? && Means(o, next, schemas, Deeper(b))
    ensures MeansIn(Resolved(map[next.prefix := OwnField(c, i)] + o.fields, o.review), c, schemas, b,
                    Rank(c.schema, Named(i)), Rank(c.schema, Named(i)) + 1)
  {
    hide Found, MarksIn, Rank, OwnField, FieldsMean, MarksMean, Next, Possible, Allows;
    OwnIs(c, schemas, i, next);
    FoundProperty(o.fields, c, schemas, b, i, next);
    MarksNested(o.review, c, schemas, b, Named(i), next);
  }

  lemma {:induction false} ThenOwn(path: string, own: Field, o: Outcome)
    ensures Then(Resolved(map[path := own], {}), o)
         == if o.Refused? then Refused else Resolved(map[path := own] + o.fields, o.review)
  {
    assert o.Resolved? ==> {} + o.review == o.review;
  }

  lemma {:induction false} OwnIs(c: Call, schemas: map<string, Schema>, i: nat, next: Call)
    requires c.schema.Object? && c.schema.reference.None? && i < |c.schema.properties|
    requires Next(c, schemas, Named(i)) == Some(next)
    ensures next.schema.Object? && Possible(c.schema, Named(i))
    ensures OwnField(c, i) == Field(c.schema.properties[i].name in c.schema.required, next.schema.facets)
  {
  }

  lemma {:induction false} RankBase(s: Schema, i: nat)
    requires s.Object?
    ensures Rank(s, Named(i)) == Rank(s, Named(0)) + i
    ensures Rank(s, Named(0)) == |Compositions(s)| && Rank(s, Item) == Rank(s, Named(0)) + |s.properties|
  {
  }

  lemma {:induction false} PropertiesMean(c: Call, schemas: map<string, Schema>, b: Bound, i: nat)
    requires Allows(b, 0) && c.schema.Object? && c.schema.reference.None? && i <= |c.schema.properties|
    requires Within(c.schema.properties, c.schema)
    ensures var base := Rank(c.schema, Named(0));
            MeansIn(ResolveProperties(c.schema, c.schema.properties[i..], schemas, c.prefix, c.seen, Deeper(b)), c,
                    schemas, b, base + i, base + |c.schema.properties|)
    decreases |schemas.Keys - c.seen|, c.schema, 0, |c.schema.properties| - i + 1
  {
    hide Resolve, ResolveProperty, MeansIn, Means, Then, Rank, Allows;
    var list, base := c.schema.properties, Rank(c.schema, Named(0));
    RankBase(c.schema, i);
    if i == |list| {
      assert list[i..] == [];
      NothingMeans(c, schemas, b, base + i);
    } else {
      assert list[i..][0] == list[i] && list[i..][1..] == list[i + 1..];
      PropertyMeans(c, schemas, b, i);
      PropertiesMean(c, schemas, b, i + 1);
      MeansThen(ResolveProperty(c.schema, list[i], schemas, c.prefix, c.seen, Deeper(b)),
                ResolveProperties(c.schema, list[i + 1..], schemas, c.prefix, c.seen, Deeper(b)), c, schemas, b,
                     base + i,
                base + i + 1, base + |list|);
    }
  }

  lemma {:induction false} ItemsMean(c: Call, schemas: map<string, Schema>, b: Bound)
    requires Allows(b, 0) && c.schema.Object? && c.schema.reference.None?
    ensures MeansIn(ResolveItems(c.schema, schemas, c.prefix, c.seen, Deeper(b)), c, schemas, b, Rank(c.schema, Item),
                    Rank(c.schema, Item) + 1)
    decreases |schemas.Keys - c.seen|, c.schema, 0, 0
  {
    hide Resolve, MeansIn, Means, Rank;
    if c.schema.items.Object? {
      var next := Call(c.schema.items, c.prefix + "[]", c.seen);
      ResolveMeans(next, schemas, Deeper(b));
      MeansNested(Resolve(next.schema, schemas, next.prefix, next.seen, Deeper(b)), c, schemas, b, Item, next);
    } else {
      NoItems(c, schemas, b);
    }
  }

  lemma {:induction false} NoItems(c: Call, schemas: map<string, Schema>, b: Bound)
    requires c.schema.Object? && c.schema.reference.None? && c.schema.items.NotObject?
    ensures MeansIn(Nothing(), c, schemas, b, Rank(c.schema, Item), Rank(c.schema, Item) + 1)
  {
    hide Found, MarksIn, Rank;
    FoundNothing(c, schemas, b, Item);
    MarksAlone(c, schemas, b, Item);
  }

  lemma {:induction false} NodeMeans(c: Call, schemas: map<string, Schema>, b: Bound)
    requires Allows(b, 0) && c.schema.Object? && c.schema.reference.None?
    ensures Means(ResolveNode(c.schema, schemas, c.prefix, c.seen, Deeper(b)), c, schemas, b)
    decreases |schemas.Keys - c.seen|, c.schema, 1
  {
    hide Resolve, ResolveAll, ResolveProperties, ResolveItems, Compositions, MeansIn, Means, Then, Checked, Rank,
         Allows;
    var s, base, last := c.schema, Rank(c.schema, Named(0)), Rank(c.schema, Item);
    RankBase(s, 0);
    InsideNode(s);
    AllMeans(c, schemas, b, 0);
    PropertiesMean(c, schemas, b, 0);
    ItemsMean(c, schemas, b);
    assert Compositions(s)[0..] == Compositions(s) && s.properties[0..] == s.properties;
    var parts := ResolveAll(s, Compositions(s), schemas, c.prefix, c.seen, Deeper(b));
    var named := ResolveProperties(s, s.properties, schemas, c.prefix, c.seen, Deeper(b));
    var items := ResolveItems(s, schemas, c.prefix, c.seen, Deeper(b));
    MeansThen(parts, named, c, schemas, b, 0, base, last);
    MeansThen(Then(parts, named), items, c, schemas, b, 0, last, last + 1);
    NodeDone(Then(Then(parts, named), items), c, schemas, b);
  }

  /** The range of all first steps is everything, up to the limit on fields. */
  lemma {:induction false} NodeDone(o: Outcome, c: Call, schemas: map<string, Schema>, b: Bound)
    requires Allows(b, 0) && c.schema.Object? && c.schema.reference.None?
    requires MeansIn(o, c, schemas, b, 0, Rank(c.schema, Item) + 1)
    ensures Means(Checked(o), c, schemas, b)
  {
    var hi := Rank(c.schema, Item) + 1;
    assert MAX_FIELDS == 8192;
    if o.Resolved? {
      if |o.fields| > 8192 {
        FoundTooMany(o.fields, c, schemas, b, 0, hi);
      } else {
        AllFields(o.fields, c, schemas, b);
        AllMarks(o.review, c, schemas, b);
        hide FieldsMean, MarksMean;
      }
    }
  }

  lemma {:induction false} RankBelow(s: Schema, step: Step)
    requires s.Object? && Possible(s, step)
    ensures Rank(s, step) < Rank(s, Item) + 1
  {
  }

  lemma {:induction false} AllFields(fields: map<string, Field>, c: Call, schemas: map<string, Schema>, b: Bound)
    requires c.schema.Object? && c.schema.reference.None?
    requires Found(fields, c, schemas, b, 0, Rank(c.schema, Item) + 1)
    ensures FieldsMean(fields, c, schemas, b)
  {
    var hi := Rank(c.schema, Item) + 1;
    forall steps, path, f | FieldAt(c, schemas, b, steps, path, f)
      ensures FieldIn(c, schemas, b, 0, hi, steps, path, f)
    {
      FirstPossible(c, schemas, b, steps, path, f);
      RankBelow(c.schema, steps[0]);
    }
    hide FieldAt, Rank, Before;
    forall path | path in fields ensures exists steps :: LastAt(c, schemas, b, steps, path, fields[path]) {
      var steps :| LastIn(c, schemas, b, 0, hi, steps, path, fields[path]);
      assert LastAt(c, schemas, b, steps, path, fields[path]);
    }
  }

  lemma {:induction false} AllMarks(review: set<Review>, c: Call, schemas: map<string, Schema>, b: Bound)
    requires Allows(b, 0) && c.schema.Object? && c.schema.reference.None?
    requires MarksIn(review, c, schemas, b, 0, Rank(c.schema, Item) + 1)
    ensures MarksMean(review, c, schemas, b)
  {
    var hi := Rank(c.schema, Item) + 1;
    forall mark ensures MarkBehind(c, schemas, b, 0, hi, mark) <==> exists steps :: MarkAt(c, schemas, b, steps, mark) {
      assert CallAt(c, schemas, []) == Some(c);
      if steps :| MarkAt(c, schemas, b, steps, mark) {
        if steps != [] {
          MarkedStep(c, schemas, b, steps, mark);
          RankBelow(c.schema, steps[0]);
          assert MarkFrom(c, schemas, b, 0, hi, steps, mark);
        } else {
          assert mark.Malformed?;
        }
      }
      if MarkBehind(c, schemas, b, 0, hi, mark) && !exists steps :: MarkFrom(c, schemas, b, 0, hi, steps, mark) {
        assert MarkAt(c, schemas, b, [], mark);
      }
    }
    hide MarkAt, MarkBehind;
  }

  /** `resolve_schema` as it is called: no prefix, nothing seen, depth 0. A path is found
      exactly when it has a derivation, with the field of the last one; a mark stands
      exactly for a call that has it; the call refuses exactly more than 8192 paths. */
  method ResolveTop(s: Schema, schemas: map<string, Schema>) returns (r: Outcome)
    ensures Means(r, Call(s, "", {}), schemas, Depth(0))
    ensures r.Refused? <==> TooMany(Call(s, "", {}), schemas, Depth(0))
  {
    hide Means, Resolve, TooMany;
    r := ResolveSchema(s, schemas, "", {}, 0);
    ResolveMeans(Call(s, "", {}), schemas, Depth(0));
    RefusedIff(r, Call(s, "", {}), schemas, Depth(0));
  }

  lemma {:induction false} RefusedIff(o: Outcome, c: Call, schemas: map<string, Schema>, b: Bound)
    requires Means(o, c, schemas, b)
    ensures o.Refused? <==> TooMany(c, schemas, b)
  {
    hide TooMany, FieldsMean, MarksMean;
    if o.Resolved? {
      NotTooMany(o.fields, c, schemas, b);
    }
  }
}
