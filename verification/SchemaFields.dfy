/** Flattening an OpenAPI schema into its fields, with a guard against reference cycles and
    a depth limit (scripts/generate_openbao_contract_matrix.py, resolve_schema). */
module SchemaFields {
  import opened Text

  const MAX_DEPTH := 16
  const MAX_FIELDS := 8192
  const MARKER := "#/components/schemas/"

  /** The review marks: schema-depth-limit, non-object-schema, external-schema-reference,
      cyclic-or-missing-schema-reference and malformed-schema-property. */
  datatype Review = DepthLimit | NonObject | External | CyclicOrMissing | Malformed

  /** A decoded JSON value in schema position. `facets` stands for the copied keys (type,
      format, enum, default, deprecated); `properties` is the dictionary in the sorted order
      of its traversal; NotObject also stands for an absent `items`. */
  datatype Schema =
    | NotObject
    | Object(
        reference: Option<string>,
        facets: string,
        allOf: seq<Schema>,
        oneOf: seq<Schema>,
        anyOf: seq<Schema>,
        properties: seq<Property>,
        required: set<string>,
        items: Schema)

  datatype Property = Property(name: string, value: Schema)

  datatype Field = Field(required: bool, facets: string)

  /** The sorted lists the source returns are determined by a map from path to field and a
      set of review marks. Refused is the exception for too many fields. */
  datatype Outcome = Refused | Resolved(fields: map<string, Field>, review: set<Review>)

  /** How deep a call is, or that depth is not counted at all. */
  datatype Bound = Unlimited | Depth(d: nat)

  function Deeper(b: Bound): Bound {
    if b.Depth? then Depth(b.d + 1) else b
  }

  function Nothing(): Outcome {
    Resolved(map[], {})
  }

  function Mark(review: Review): Outcome {
    Resolved(map[], {review})
  }

  /** `extend` on both lists: a later field replaces an earlier one of the same path. */
  function Then(a: Outcome, b: Outcome): Outcome {
    if a.Refused? || b.Refused? then Refused
    else Resolved(a.fields + b.fields, a.review + b.review)
  }

  function Compositions(s: Schema): seq<Schema>
    requires s.Object?
  {
    s.allOf + s.oneOf + s.anyOf
  }

  function PropertyPath(prefix: string, name: string): string {
    if prefix != "" then prefix + "." + name else name
  }

  function Checked(all: Outcome): Outcome {
    if all.Refused? || |all.fields| > MAX_FIELDS then Refused else all
  }

  /** The schema a local reference names; None for an external one. */
  function SchemaName(reference: string): Option<string> {
    if StartsWith(reference, MARKER) then Some(reference[|MARKER|..]) else None
  }

  /** Members of a schema are structurally smaller than it. */
  ghost predicate Inside(list: seq<Schema>, owner: Schema) {
    forall i :: 0 <= i < |list| ==> list[i] < owner
  }

  ghost predicate Within(list: seq<Property>, owner: Schema) {
    forall i :: 0 <= i < |list| ==> list[i].value < owner
  }

  lemma {:induction false} InsideNode(s: Schema)
    requires s.Object?
    ensures Inside(Compositions(s), s) && Within(s.properties, s)
  {
  }

  /** The resolver. With `Unlimited` only `seen` guards it, and it still ends: a reference
      uses up a schema name, every other step descends into the schema. */
  function Resolve(s: Schema, schemas: map<string, Schema>, prefix: string, seen: set<string>, b: Bound): Outcome
    decreases |schemas.Keys - seen|, s, 2
  {
    if b.Depth? && b.d > MAX_DEPTH then Mark(DepthLimit)
    else if s.NotObject? then Mark(NonObject)
    else if s.reference.Some? then ResolveReference(s, SchemaName(s.reference.value), schemas, prefix, seen, Deeper(b))
    else ResolveNode(s, schemas, prefix, seen, Deeper(b))
  }

  /** A reference; `from` is the schema that holds it. */
  function ResolveReference(from: Schema, name: Option<string>, schemas: map<string, Schema>, prefix: string,
                            seen: set<string>, b: Bound): Outcome
    decreases |schemas.Keys - seen|, from, 1
  {
    if name.None? then Mark(External)
    else if name.value in seen || name.value !in schemas then Mark(CyclicOrMissing)
    else
      FewerUnseen(schemas, seen, name.value);
      Resolve(schemas[name.value], schemas, prefix, seen + {name.value}, b)
  }

  /** A schema without a reference: compositions, properties, then array items. */
  function ResolveNode(s: Schema, schemas: map<string, Schema>, prefix: string, seen: set<string>, b: Bound): Outcome
    requires s.Object?
    decreases |schemas.Keys - seen|, s, 1
  {
    InsideNode(s);
    var parts := ResolveAll(s, Compositions(s), schemas, prefix, seen, b);
    var named := ResolveProperties(s, s.properties, schemas, prefix, seen, b);
    Checked(Then(Then(parts, named), ResolveItems(s, schemas, prefix, seen, b)))
  }

  function ResolveItems(s: Schema, schemas: map<string, Schema>, prefix: string, seen: set<string>, b: Bound): Outcome
    requires s.Object?
    decreases |schemas.Keys - seen|, s, 0, 0
  {
    if s.items.Object? then Resolve(s.items, schemas, prefix + "[]", seen, b) else Nothing()
  }

  function ResolveAll(owner: Schema, list: seq<Schema>, schemas: map<string, Schema>, prefix: string,
                      seen: set<string>, b: Bound): Outcome
    requires Inside(list, owner)
    decreases |schemas.Keys - seen|, owner, 0, |list|
  {
    if list == [] then Nothing()
    else
      Then(Resolve(list[0], schemas, prefix, seen, b), ResolveAll(owner, list[1..], schemas, prefix, seen, b))
  }

  function ResolveProperties(owner: Schema, list: seq<Property>, schemas: map<string, Schema>, prefix: string,
                             seen: set<string>, b: Bound): Outcome
    requires owner.Object? && Within(list, owner)
    decreases |schemas.Keys - seen|, owner, 0, |list|
  {
    if list == [] then Nothing()
    else
      Then(ResolveProperty(owner, list[0], schemas, prefix, seen, b),
           ResolveProperties(owner, list[1..], schemas, prefix, seen, b))
  }

  function ResolveProperty(owner: Schema, p: Property, schemas: map<string, Schema>, prefix: string, seen: set<string>,
                           b: Bound): Outcome
    requires owner.Object? && p.value < owner
    decreases |schemas.Keys - seen|, owner, 0, 0
  {
    if p.value.NotObject? then Mark(Malformed)
    else
      var path := PropertyPath(prefix, p.name);
      Then(Resolved(map[path := Field(p.name in owner.required, p.value.facets)], {}),
           Resolve(p.value, schemas, path, seen, b))
  }

  lemma {:induction false} FewerUnseen(schemas: map<string, Schema>, seen: set<string>, name: string)
    requires name in schemas && name !in seen
    ensures |schemas.Keys - (seen + {name})| < |schemas.Keys - seen|
  {
    assert schemas.Keys - (seen + {name}) == schemas.Keys - seen - {name};
  }

  // ----- The depth limit only cuts, and says so

  /** `loose` counts no depth, or starts no deeper than `d`. */
  predicate Looser(loose: Bound, d: nat) {
    loose.Unlimited? || loose.d <= d
  }

  /** A limited result against a looser one: it never refuses more, it finds no path the
      other lacks, and without the depth mark the two are the same. */
  ghost predicate Cut(limited: Outcome, loose: Outcome) {
    && (loose.Resolved? ==> limited.Resolved? && limited.fields.Keys <= loose.fields.Keys)
    && (limited.Resolved? && DepthLimit !in limited.review ==> loose == limited)
  }

  lemma {:induction false} CutSame(a: Outcome)
    ensures Cut(a, a)
  {
  }

  lemma {:induction false} CutThen(a: Outcome, b: Outcome, x: Outcome, y: Outcome)
    requires Cut(a, x) && Cut(b, y)
    ensures Cut(Then(a, b), Then(x, y))
  {
  }

  lemma {:induction false} CutChecked(a: Outcome, x: Outcome)
    requires Cut(a, x)
    ensures Cut(Checked(a), Checked(x))
  {
    if x.Resolved? {
      SubsetSize(a.fields.Keys, x.fields.Keys);
      assert |a.fields| == |a.fields.Keys| && |x.fields| == |x.fields.Keys|;
    }
  }

  lemma {:induction false} ResolveCut(s: Schema, schemas: map<string, Schema>, prefix: string, seen: set<string>,
                                      d: nat, loose: Bound)
    requires Looser(loose, d)
    ensures Cut(Resolve(s, schemas, prefix, seen, Depth(d)), Resolve(s, schemas, prefix, seen, loose))
    decreases |schemas.Keys - seen|, s, 2
  {
    hide ResolveNode, ResolveReference, SchemaName;
    if d > MAX_DEPTH || s.NotObject? {
    } else if s.reference.Some? {
      ReferenceCut(s, SchemaName(s.reference.value), schemas, prefix, seen, d + 1, Deeper(loose));
    } else {
      NodeCut(s, schemas, prefix, seen, d + 1, Deeper(loose));
    }
  }

  lemma {:induction false} ReferenceCut(from: Schema, name: Option<string>, schemas: map<string, Schema>,
                                        prefix: string, seen: set<string>, d: nat, loose: Bound)
    requires Looser(loose, d)
    ensures Cut(ResolveReference(from, name, schemas, prefix, seen, Depth(d)),
                ResolveReference(from, name, schemas, prefix, seen, loose))
    decreases |schemas.Keys - seen|, from, 1
  {
    hide Resolve, Cut;
    if name.Some? && name.value !in seen && name.value in schemas {
      FewerUnseen(schemas, seen, name.value);
      var target, wider := schemas[name.value], seen + {name.value};
      ResolveCut(target, schemas, prefix, wider, d, loose);
    } else {
      CutSame(ResolveReference(from, name, schemas, prefix, seen, Depth(d)));
    }
  }

  lemma {:induction false} NodeCut(s: Schema, schemas: map<string, Schema>, prefix: string, seen: set<string>, d: nat,
                                   loose: Bound)
    requires Looser(loose, d) && s.Object?
    ensures Cut(ResolveNode(s, schemas, prefix, seen, Depth(d)), ResolveNode(s, schemas, prefix, seen, loose))
    decreases |schemas.Keys - seen|, s, 1
  {
    hide Resolve, ResolveAll, ResolveProperties, ResolveItems, Compositions, Cut, Then, Checked;
    InsideNode(s);
    AllCut(s, Compositions(s), schemas, prefix, seen, d, loose);
    PropertiesCut(s, s.properties, schemas, prefix, seen, d, loose);
    ItemsCut(s, schemas, prefix, seen, d, loose);
    var a := ResolveAll(s, Compositions(s), schemas, prefix, seen, Depth(d));
    var x := ResolveAll(s, Compositions(s), schemas, prefix, seen, loose);
    var b := ResolveProperties(s, s.properties, schemas, prefix, seen, Depth(d));
    var y := ResolveProperties(s, s.properties, schemas, prefix, seen, loose);
    var c, z := ResolveItems(s, schemas, prefix, seen, Depth(d)), ResolveItems(s, schemas, prefix, seen, loose);
    CutThen(a, b, x, y);
    CutThen(Then(a, b), c, Then(x, y), z);
    CutChecked(Then(Then(a, b), c), Then(Then(x, y), z));
  }

  lemma {:induction false} ItemsCut(s: Schema, schemas: map<string, Schema>, prefix: string, seen: set<string>, d: nat,
                                    loose: Bound)
    requires Looser(loose, d) && s.Object?
    ensures Cut(ResolveItems(s, schemas, prefix, seen, Depth(d)), ResolveItems(s, schemas, prefix, seen, loose))
    decreases |schemas.Keys - seen|, s, 0, 0
  {
    if s.items.Object? {
      ResolveCut(s.items, schemas, prefix + "[]", seen, d, loose);
    }
  }

  lemma {:induction false} AllCut(owner: Schema, list: seq<Schema>, schemas: map<string, Schema>, prefix: string,
                                  seen: set<string>, d: nat, loose: Bound)
    requires Looser(loose, d) && Inside(list, owner)
    ensures Cut(ResolveAll(owner, list, schemas, prefix, seen, Depth(d)),
                ResolveAll(owner, list, schemas, prefix, seen, loose))
    decreases |schemas.Keys - seen|, owner, 0, |list|
  {
    if list != [] {
      ResolveCut(list[0], schemas, prefix, seen, d, loose);
      AllCut(owner, list[1..], schemas, prefix, seen, d, loose);
    }
  }

  lemma {:induction false} PropertiesCut(owner: Schema, list: seq<Property>, schemas: map<string, Schema>,
                                         prefix: string, seen: set<string>, d: nat, loose: Bound)
    requires Looser(loose, d) && owner.Object? && Within(list, owner)
    ensures Cut(ResolveProperties(owner, list, schemas, prefix, seen, Depth(d)),
                ResolveProperties(owner, list, schemas, prefix, seen, loose))
    decreases |schemas.Keys - seen|, owner, 0, |list|
  {
    if list != [] {
      PropertyCut(owner, list[0], schemas, prefix, seen, d, loose);
      PropertiesCut(owner, list[1..], schemas, prefix, seen, d, loose);
    }
  }

  lemma {:induction false} PropertyCut(owner: Schema, p: Property, schemas: map<string, Schema>, prefix: string,
                                       seen: set<string>, d: nat, loose: Bound)
    requires Looser(loose, d) && owner.Object? && p.value < owner
    ensures Cut(ResolveProperty(owner, p, schemas, prefix, seen, Depth(d)),
                ResolveProperty(owner, p, schemas, prefix, seen, loose))
    decreases |schemas.Keys - seen|, owner, 0, 0
  {
    if p.value.Object? {
      ResolveCut(p.value, schemas, PropertyPath(prefix, p.name), seen, d, loose);
    }
  }

  // ----- The mark appears only when the limit bites

  ghost predicate Clean(o: Outcome) {
    o.Resolved? ==> DepthLimit !in o.review
  }

  lemma {:induction false} UnlimitedClean(s: Schema, schemas: map<string, Schema>, prefix: string, seen: set<string>)
    ensures Clean(Resolve(s, schemas, prefix, seen, Unlimited))
    decreases |schemas.Keys - seen|, s, 2
  {
    hide ResolveNode, ResolveReference, SchemaName;
    if s.NotObject? {
    } else if s.reference.Some? {
      ReferenceClean(s, SchemaName(s.reference.value), schemas, prefix, seen);
    } else {
      NodeClean(s, schemas, prefix, seen);
    }
  }

  lemma {:induction false} ReferenceClean(from: Schema, name: Option<string>, schemas: map<string, Schema>,
                                          prefix: string, seen: set<string>)
    ensures Clean(ResolveReference(from, name, schemas, prefix, seen, Unlimited))
    decreases |schemas.Keys - seen|, from, 1
  {
    hide Resolve;
    if name.Some? && name.value !in seen && name.value in schemas {
      FewerUnseen(schemas, seen, name.value);
      UnlimitedClean(schemas[name.value], schemas, prefix, seen + {name.value});
    }
  }

  lemma {:induction false} NodeClean(s: Schema, schemas: map<string, Schema>, prefix: string, seen: set<string>)
    requires s.Object?
    ensures Clean(ResolveNode(s, schemas, prefix, seen, Unlimited))
    decreases |schemas.Keys - seen|, s, 1
  {
    hide Resolve, ResolveAll, ResolveProperties, Compositions;
    InsideNode(s);
    AllClean(s, Compositions(s), schemas, prefix, seen);
    PropertiesClean(s, s.properties, schemas, prefix, seen);
    if s.items.Object? {
      UnlimitedClean(s.items, schemas, prefix + "[]", seen);
    }
  }

  lemma {:induction false} AllClean(owner: Schema, list: seq<Schema>, schemas: map<string, Schema>, prefix: string,
                                    seen: set<string>)
    requires Inside(list, owner)
    ensures Clean(ResolveAll(owner, list, schemas, prefix, seen, Unlimited))
    decreases |schemas.Keys - seen|, owner, 0, |list|
  {
    if list != [] {
      UnlimitedClean(list[0], schemas, prefix, seen);
      AllClean(owner, list[1..], schemas, prefix, seen);
    }
  }

  lemma {:induction false} PropertiesClean(owner: Schema, list: seq<Property>, schemas: map<string, Schema>,
                                           prefix: string, seen: set<string>)
    requires owner.Object? && Within(list, owner)
    ensures Clean(ResolveProperties(owner, list, schemas, prefix, seen, Unlimited))
    decreases |schemas.Keys - seen|, owner, 0, |list|
  {
    if list != [] {
      var p := list[0];
      if p.value.Object? {
        UnlimitedClean(p.value, schemas, PropertyPath(prefix, p.name), seen);
      }
      PropertiesClean(owner, list[1..], schemas, prefix, seen);
    }
  }

  /** The depth mark tells exactly whether the limit changed anything. */
  lemma {:induction false} DepthMarkIff(s: Schema, schemas: map<string, Schema>, prefix: string, seen: set<string>,
                                        d: nat)
    requires Resolve(s, schemas, prefix, seen, Depth(d)).Resolved?
    ensures var limited := Resolve(s, schemas, prefix, seen, Depth(d));
            DepthLimit !in limited.review <==> limited == Resolve(s, schemas, prefix, seen, Unlimited)
  {
    ResolveCut(s, schemas, prefix, seen, d, Unlimited);
    UnlimitedClean(s, schemas, prefix, seen);
  }

  /** A result without the mark is the same from any shallower start. */
  lemma {:induction false} ShallowerSame(s: Schema, schemas: map<string, Schema>, prefix: string, seen: set<string>,
                                         d: nat, shallower: nat)
    requires shallower <= d
    requires var limited := Resolve(s, schemas, prefix, seen, Depth(d));
             limited.Resolved? && DepthLimit !in limited.review
    ensures Resolve(s, schemas, prefix, seen, Depth(shallower)) == Resolve(s, schemas, prefix, seen, Depth(d))
  {
    ResolveCut(s, schemas, prefix, seen, d, Depth(shallower));
  }

  /** The limit never turns an answer into a refusal, and never invents a path. */
  lemma {:induction false} LimitOnlyCuts(s: Schema, schemas: map<string, Schema>, prefix: string, seen: set<string>,
                                         d: nat)
    requires Resolve(s, schemas, prefix, seen, Unlimited).Resolved?
    ensures var limited := Resolve(s, schemas, prefix, seen, Depth(d));
            limited.Resolved? && limited.fields.Keys <= Resolve(s, schemas, prefix, seen, Unlimited).fields.Keys
  {
    ResolveCut(s, schemas, prefix, seen, d, Unlimited);
  }

  // ----- The source's loops

  lemma {:induction false} ThenAssoc(a: Outcome, b: Outcome, c: Outcome)
    ensures Then(a, Then(b, c)) == Then(Then(a, b), c)
    ensures Then(Nothing(), a) == a && Then(a, Nothing()) == a
  {
    if a.Resolved? {
      assert map[] + a.fields == a.fields;
      assert {} + a.review == a.review;
      if b.Resolved? && c.Resolved? {
        assert a.fields + (b.fields + c.fields) == a.fields + b.fields + c.fields;
      }
    }
  }

  method ResolveSchema(s: Schema, schemas: map<string, Schema>, prefix: string, seen: set<string>,
                       depth: nat) returns (r: Outcome)
    ensures r == Resolve(s, schemas, prefix, seen, Depth(depth))
    decreases |schemas.Keys - seen|, s, 2
  {
    hide ResolveNode, ResolveReference, SchemaName;
    if depth > MAX_DEPTH {
      return Mark(DepthLimit);
    }
    if s.NotObject? {
      return Mark(NonObject);
    }
    if s.reference.Some? {
      r := FollowReference(s, SchemaName(s.reference.value), schemas, prefix, seen, depth + 1);
      return;
    }
    r := ResolveObject(s, schemas, prefix, seen, depth + 1);
  }

  method FollowReference(from: Schema, name: Option<string>, schemas: map<string, Schema>, prefix: string,
                         seen: set<string>, depth: nat) returns (r: Outcome)
    ensures r == ResolveReference(from, name, schemas, prefix, seen, Depth(depth))
    decreases |schemas.Keys - seen|, from, 1
  {
    hide Resolve;
    if name.None? {
      return Mark(External);
    }
    if name.value in seen || name.value !in schemas {
      return Mark(CyclicOrMissing);
    }
    FewerUnseen(schemas, seen, name.value);
    r := ResolveSchema(schemas[name.value], schemas, prefix, seen + {name.value}, depth);
  }

  /** The part of `resolve_schema` after the reference check; `depth` is that of the nested calls. */
  method ResolveObject(s: Schema, schemas: map<string, Schema>, prefix: string, seen: set<string>,
                       depth: nat) returns (r: Outcome)
    requires s.Object?
    ensures r == ResolveNode(s, schemas, prefix, seen, Depth(depth))
    decreases |schemas.Keys - seen|, s, 1
  {
    hide Resolve, ResolveAll, ResolveProperties, Compositions, Then, Checked;
    InsideNode(s);
    var parts := ComposeAll(s, Compositions(s), schemas, prefix, seen, depth);
    var named := ComposeProperties(s, s.properties, schemas, prefix, seen, depth);
    var item := Nothing();
    if s.items.Object? {
      item := ResolveSchema(s.items, schemas, prefix + "[]", seen, depth);
    }
    r := Checked(Then(Then(parts, named), item));
  }

  /** The loop over allOf, oneOf and anyOf. */
  method ComposeAll(owner: Schema, list: seq<Schema>, schemas: map<string, Schema>, prefix: string, seen: set<string>,
                    depth: nat) returns (r: Outcome)
    requires Inside(list, owner)
    ensures r == ResolveAll(owner, list, schemas, prefix, seen, Depth(depth))
    decreases |schemas.Keys - seen|, owner, 0, |list|
  {
    r := Nothing();
    var k := 0;
    assert list[0..] == list;
    ThenAssoc(ResolveAll(owner, list, schemas, prefix, seen, Depth(depth)), r, r);
    while k < |list|
      invariant 0 <= k <= |list|
      invariant ResolveAll(owner, list, schemas, prefix, seen, Depth(depth))
             == Then(r, ResolveAll(owner, list[k..], schemas, prefix, seen, Depth(depth)))
    {
      assert list[k..][1..] == list[k + 1..];
      var nested := ResolveSchema(list[k], schemas, prefix, seen, depth);
      ThenAssoc(r, nested, ResolveAll(owner, list[k + 1..], schemas, prefix, seen, Depth(depth)));
      r := Then(r, nested);
      if r.Refused? {
        return;
      }
      k := k + 1;
    }
    ThenAssoc(r, r, r);
  }

  /** The loop over the properties. */
  method ComposeProperties(owner: Schema, list: seq<Property>, schemas: map<string, Schema>, prefix: string,
                           seen: set<string>, depth: nat) returns (r: Outcome)
    requires owner.Object? && Within(list, owner)
    ensures r == ResolveProperties(owner, list, schemas, prefix, seen, Depth(depth))
    decreases |schemas.Keys - seen|, owner, 0, |list|
  {
    r := Nothing();
    var k := 0;
    assert list[0..] == list;
    ThenAssoc(ResolveProperties(owner, list, schemas, prefix, seen, Depth(depth)), r, r);
    while k < |list|
      invariant 0 <= k <= |list|
      invariant ResolveProperties(owner, list, schemas, prefix, seen, Depth(depth))
             == Then(r, ResolveProperties(owner, list[k..], schemas, prefix, seen, Depth(depth)))
    {
      var p := list[k];
      assert list[k..][1..] == list[k + 1..];
      var found := Mark(Malformed);
      if p.value.Object? {
        var path := PropertyPath(prefix, p.name);
        var nested := ResolveSchema(p.value, schemas, path, seen, depth);
        found := Then(Resolved(map[path := Field(p.name in owner.required, p.value.facets)], {}), nested);
      }
      ThenAssoc(r, found, ResolveProperties(owner, list[k + 1..], schemas, prefix, seen, Depth(depth)));
      r := Then(r, found);
      if r.Refused? {
        return;
      }
      k := k + 1;
    }
    ThenAssoc(r, r, r);
  }
}
