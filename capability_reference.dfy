/**
 * `CapabilityReference`: the recorder that ties a capability to a
 * requirement.  It registers (and deregisters) one requirement per attribute
 * value, naming the dependent capability after the current address, and
 * builds dynamic requirement names by joining their parts with `.$`.
 *
 * The management model around it is a `Ctx` value (the current address, the
 * value of the current address's last element, and the current resource's
 * attributes as strings), and the capability registry is an event log.
 * `Capability.resolve`, `UnaryRequirement.resolve` and
 * `BinaryRequirement.resolve` are function values, their code not being part
 * of this model.
 */
module CapabilityRef {
  import opened Common

  /** A path address: its (key, value) elements. */
  type Address = seq<(string, string)>

  datatype Ctx = Ctx(currentAddress: Address, currentAddressValue: string, attribute: string -> string)

  /** The capability's definition: its name and whether it is dynamically named. */
  datatype CapabilityDef = CapabilityDef(name: string, dynamicallyNamed: bool)

  /** `Capability`: its definition, and the name it resolves to at an address. */
  datatype Capability = Capability(definition: CapabilityDef, resolve: Address -> string)

  /** `Requirement`, unary (one dynamic part) or binary (a parent and a child part). */
  datatype Requirement =
    | Unary(name: string, resolve1: string -> string)
    | Binary(name: string, resolve2: (string, string) -> string)

  /** `requirementResolver`: the requirement name for an attribute value, if any;
   *  a Java null value is `None`. */
  type Resolver = (Ctx, Option<string>) -> Option<string>

  datatype Reference = Reference(
    capability: Capability,
    requirement: Requirement,
    resolver: Resolver,
    dynamicParts: Option<seq<string>>)

  /** The resolver of a unary requirement: no requirement for a null value,
   *  the requirement resolved by the value otherwise. */
  function UnaryResolver(req: Requirement): (f: Resolver)
    requires req.Unary?
    ensures forall ctx :: f(ctx, None) == None
    ensures forall ctx, v :: f(ctx, Some(v)) == Some(req.resolve1(v))
  {
    (ctx: Ctx, value: Option<string>) => if value.Some? then Some(req.resolve1(value.value)) else None
  }

  /** The resolver of a binary requirement: the parent part comes from the
   *  context, the child part is the value. */
  function BinaryResolver(req: Requirement, parent: Ctx -> string): (f: Resolver)
    requires req.Binary?
    ensures forall ctx :: f(ctx, None) == None
    ensures forall ctx, v :: f(ctx, Some(v)) == Some(req.resolve2(parent(ctx), v))
  {
    (ctx: Ctx, value: Option<string>) => if value.Some? then Some(req.resolve2(parent(ctx), value.value)) else None
  }

  /** The constructor for a unary requirement. */
  function UnaryReference(cap: Capability, req: Requirement, parts: Option<seq<string>>): (r: Reference)
    requires req.Unary?
    ensures r.capability == cap && r.requirement == req && r.dynamicParts == parts
    ensures forall ctx, v :: r.resolver(ctx, v) == UnaryResolver(req)(ctx, v)
  {
    Reference(cap, req, UnaryResolver(req), parts)
  }

  /** The constructor taking the parent part from a resolver over the context. */
  function BinaryReference(cap: Capability, req: Requirement, parent: Ctx -> string, parts: Option<seq<string>>): (r: Reference)
    requires req.Binary?
    ensures r.capability == cap && r.requirement == req && r.dynamicParts == parts
    ensures forall ctx, v :: r.resolver(ctx, v) == BinaryResolver(req, parent)(ctx, v)
  {
    Reference(cap, req, BinaryResolver(req, parent), parts)
  }

  /** The binary constructor whose parent part is the current address's value. */
  function AddressReference(cap: Capability, req: Requirement, parts: Option<seq<string>>): (r: Reference)
    requires req.Binary?
    ensures forall ctx :: r.resolver(ctx, None) == None
    ensures forall ctx: Ctx, v :: r.resolver(ctx, Some(v)) == Some(req.resolve2(ctx.currentAddressValue, v))
  {
    BinaryReference(cap, req, (ctx: Ctx) => ctx.currentAddressValue, parts)
  }

  /** The binary constructor whose parent part is an attribute of the current resource. */
  function AttributeReference(cap: Capability, req: Requirement, attributeName: string, parts: Option<seq<string>>): (r: Reference)
    requires req.Binary?
    ensures forall ctx :: r.resolver(ctx, None) == None
    ensures forall ctx: Ctx, v :: r.resolver(ctx, Some(v)) == Some(req.resolve2(ctx.attribute(attributeName), v))
  {
    BinaryReference(cap, req, (ctx: Ctx) => ctx.attribute(attributeName), parts)
  }

  // ---------------------------------------------------------------------
  // Registering requirements
  // ---------------------------------------------------------------------

  /** A call on the capability registry of the operation context. */
  datatype Event =
    | Register(requirement: string, dependent: string, attribute: string)
    | Deregister(requirement: string, dependent: string)

  /** The dependent capability's name at the current address. */
  function DependentName(ref: Reference, ctx: Ctx): string
  {
    ref.capability.resolve(ctx.currentAddress)
  }

  /** The registrations `addCapabilityRequirements` makes, in value order. */
  function AddEvents(ref: Reference, ctx: Ctx, attributeName: string, values: seq<Option<string>>): seq<Event>
  {
    if values == [] then []
    else
      var n := |values| - 1;
      var name := ref.resolver(ctx, values[n]);
      AddEvents(ref, ctx, attributeName, values[..n]) +
        if name.Some? then [Register(name.value, DependentName(ref, ctx), attributeName)] else []
  }

  /** The deregistrations `removeCapabilityRequirements` makes, in value order. */
  function RemoveEvents(ref: Reference, ctx: Ctx, values: seq<Option<string>>): seq<Event>
  {
    if values == [] then []
    else
      var n := |values| - 1;
      var name := ref.resolver(ctx, values[n]);
      RemoveEvents(ref, ctx, values[..n]) +
        if name.Some? then [Deregister(name.value, DependentName(ref, ctx))] else []
  }

  /** The (requirement, dependent) pairs a sequence of registry calls names. */
  function Pairs(events: seq<Event>): (r: seq<(string, string)>)
    ensures |r| == |events|
    ensures forall k :: 0 <= k < |events| ==> r[k] == (events[k].requirement, events[k].dependent)
  {
    seq(|events|, k requires 0 <= k < |events| => (events[k].requirement, events[k].dependent))
  }

  /** Removing values deregisters exactly what adding them registered, in the same order. */
  lemma {:induction false} RemoveUndoesAdd(ref: Reference, ctx: Ctx, attributeName: string, values: seq<Option<string>>)
    ensures Pairs(RemoveEvents(ref, ctx, values)) == Pairs(AddEvents(ref, ctx, attributeName, values))
    decreases |values|
  {
    if values != [] {
      var n := |values| - 1;
      RemoveUndoesAdd(ref, ctx, attributeName, values[..n]);
    }
  }

  /** `e` is the registration of some value that names a requirement. */
  ghost predicate RegistersSome(ref: Reference, ctx: Ctx, attributeName: string, values: seq<Option<string>>, e: Event)
  {
    exists k :: 0 <= k < |values| && ref.resolver(ctx, values[k]) == Some(e.requirement) &&
      e == Register(e.requirement, DependentName(ref, ctx), attributeName)
  }

  /**
   * A registration is made for a value exactly when the resolver names a
   * requirement for it; values it maps to nothing are skipped, and every
   * registration names the dependent at the current address.
   */
  lemma {:induction false} AddEventsMembers(ref: Reference, ctx: Ctx, attributeName: string, values: seq<Option<string>>)
    ensures forall e :: e in AddEvents(ref, ctx, attributeName, values) <==> RegistersSome(ref, ctx, attributeName, values, e)
    ensures |AddEvents(ref, ctx, attributeName, values)| <= |values|
    decreases |values|
  {
    if values != [] {
      var n := |values| - 1;
      AddEventsMembers(ref, ctx, attributeName, values[..n]);
      forall e ensures e in AddEvents(ref, ctx, attributeName, values) <==> RegistersSome(ref, ctx, attributeName, values, e)
      {
        if RegistersSome(ref, ctx, attributeName, values[..n], e) {
          var k :| 0 <= k < n && ref.resolver(ctx, values[..n][k]) == Some(e.requirement) &&
            e == Register(e.requirement, DependentName(ref, ctx), attributeName);
          assert values[..n][k] == values[k];
        }
        if RegistersSome(ref, ctx, attributeName, values, e) {
          var k :| 0 <= k < |values| && ref.resolver(ctx, values[k]) == Some(e.requirement) &&
            e == Register(e.requirement, DependentName(ref, ctx), attributeName);
          if k < n {
            assert values[..n][k] == values[k];
          }
        }
      }
    }
  }

  /** The operation context's capability registry, as the calls made on it. */
  class Registry {
    var events: seq<Event>

    constructor ()
      ensures events == []
    {
      events := [];
    }

    /** `registerAdditionalCapabilityRequirement`. */
    method Register(requirement: string, dependent: string, attribute: string)
      modifies this
      ensures events == old(events) + [Event.Register(requirement, dependent, attribute)]
    {
      events := events + [Event.Register(requirement, dependent, attribute)];
    }

    /** `deregisterCapabilityRequirement`. */
    method Deregister(requirement: string, dependent: string)
      modifies this
      ensures events == old(events) + [Event.Deregister(requirement, dependent)]
    {
      events := events + [Event.Deregister(requirement, dependent)];
    }
  }

  /** `addCapabilityRequirements`: one registration per value that names a requirement. */
  method AddCapabilityRequirements(ref: Reference, ctx: Ctx, reg: Registry, attributeName: string, values: seq<Option<string>>)
    modifies reg
    ensures reg.events == old(reg.events) + AddEvents(ref, ctx, attributeName, values)
  {
    var dependentName := DependentName(ref, ctx);
    for i := 0 to |values|
      invariant reg.events == old(reg.events) + AddEvents(ref, ctx, attributeName, values[..i])
    {
      var requirementName := ref.resolver(ctx, values[i]);
      if requirementName.Some? {
        reg.Register(requirementName.value, dependentName, attributeName);
      }
      assert values[..i + 1][..i] == values[..i];
    }
    assert values[..|values|] == values;
  }

  /** `removeCapabilityRequirements`: one deregistration per value that names a requirement. */
  method RemoveCapabilityRequirements(ref: Reference, ctx: Ctx, reg: Registry, values: seq<Option<string>>)
    modifies reg
    ensures reg.events == old(reg.events) + RemoveEvents(ref, ctx, values)
  {
    var dependentName := DependentName(ref, ctx);
    for i := 0 to |values|
      invariant reg.events == old(reg.events) + RemoveEvents(ref, ctx, values[..i])
    {
      var requirementName := ref.resolver(ctx, values[i]);
      if requirementName.Some? {
        reg.Deregister(requirementName.value, dependentName);
      }
      assert values[..i + 1][..i] == values[..i];
    }
    assert values[..|values|] == values;
  }

  // ---------------------------------------------------------------------
  // Requirement names
  // ---------------------------------------------------------------------

  const Separator: string := ".$"

  /** The parts a null or empty array contributes: none. */
  function PartsOf(a: Option<seq<string>>): (r: seq<string>)
    ensures a.None? ==> r == []
    ensures a.Some? ==> r == a.value
  {
    if a.Some? then a.value else []
  }

  /** `getBaseRequirementName`. */
  function BaseRequirementName(ref: Reference): string
  {
    ref.requirement.name
  }

  /** The requirement name: base name, then the reference's dynamic parts,
   *  then the given elements, joined by `.$`. */
  function RequirementName(ref: Reference, elements: Option<seq<string>>): string
  {
    Join(Separator, [BaseRequirementName(ref)] + PartsOf(ref.dynamicParts) + PartsOf(elements))
  }

  /** A join is as long as its parts and the separators between them. */
  lemma {:induction false} JoinLength(sep: string, xs: seq<string>)
    requires xs != []
    ensures |Join(sep, xs)| == SumLengths(xs) + (|xs| - 1) * |sep|
    decreases |xs|
  {
    if |xs| > 1 {
      var init := xs[..|xs| - 1];
      JoinLength(sep, init);
      SumLengthsSnoc(init, xs[|xs| - 1]);
      assert init + [xs[|xs| - 1]] == xs;
      JoinSnoc(sep, init, xs[|xs| - 1]);
      var n := |init|;
      assert (n - 1) * |sep| + |sep| == n * |sep|;
    }
  }

  /** A join starts with its first part. */
  lemma {:induction false} JoinPrefix(sep: string, xs: seq<string>)
    requires xs != []
    ensures |xs[0]| <= |Join(sep, xs)| && Join(sep, xs)[..|xs[0]|] == xs[0]
    decreases |xs|
  {
    if |xs| > 1 {
      var init := xs[..|xs| - 1];
      JoinPrefix(sep, init);
      assert init[0] == xs[0];
      assert init + [xs[|xs| - 1]] == xs;
      JoinSnoc(sep, init, xs[|xs| - 1]);
      var j := Join(sep, init);
      assert (j + sep + xs[|xs| - 1])[..|xs[0]|] == j[..|xs[0]|];
    }
  }

  function SumLengths(xs: seq<string>): nat
  {
    if xs == [] then 0 else SumLengths(xs[..|xs| - 1]) + |xs[|xs| - 1]|
  }

  lemma SumLengthsSnoc(xs: seq<string>, x: string)
    ensures SumLengths(xs + [x]) == SumLengths(xs) + |x|
  {
    assert (xs + [x])[..|xs|] == xs;
  }

  /** The requirement name starts with the base requirement name; with no
   *  dynamic parts and no elements it is exactly that name. */
  lemma RequirementNameShape(ref: Reference, elements: Option<seq<string>>)
    ensures |BaseRequirementName(ref)| <= |RequirementName(ref, elements)|
    ensures RequirementName(ref, elements)[..|BaseRequirementName(ref)|] == BaseRequirementName(ref)
    ensures PartsOf(ref.dynamicParts) == [] && PartsOf(elements) == [] ==>
      RequirementName(ref, elements) == BaseRequirementName(ref)
    ensures |RequirementName(ref, elements)| ==
      SumLengths([BaseRequirementName(ref)] + PartsOf(ref.dynamicParts) + PartsOf(elements)) +
      (|PartsOf(ref.dynamicParts)| + |PartsOf(elements)|) * |Separator|
  {
    var xs := [BaseRequirementName(ref)] + PartsOf(ref.dynamicParts) + PartsOf(elements);
    JoinLength(Separator, xs);
    JoinPrefix(Separator, xs);
  }

  /** `getRequirementName`: the `StringJoiner` loops over the dynamic parts and the elements. */
  method GetRequirementName(ref: Reference, elements: Option<seq<string>>) returns (r: string)
    ensures r == RequirementName(ref, elements)
  {
    ghost var added := [ref.requirement.name];
    r := ref.requirement.name;
    if ref.dynamicParts.Some? && |ref.dynamicParts.value| > 0 {
      var parts := ref.dynamicParts.value;
      for i := 0 to |parts|
        invariant added == [ref.requirement.name] + parts[..i] && r == Join(Separator, added)
      {
        JoinSnoc(Separator, added, parts[i]);
        r := r + Separator + parts[i];
        added := added + [parts[i]];
        assert parts[..i + 1] == parts[..i] + [parts[i]];
      }
      assert parts[..|parts|] == parts;
    }
    assert added == [ref.requirement.name] + PartsOf(ref.dynamicParts);
    if elements.Some? && |elements.value| > 0 {
      var parts := elements.value;
      ghost var prefix := added;
      for i := 0 to |parts|
        invariant added == prefix + parts[..i] && r == Join(Separator, added)
      {
        JoinSnoc(Separator, added, parts[i]);
        r := r + Separator + parts[i];
        added := added + [parts[i]];
        assert parts[..i + 1] == parts[..i] + [parts[i]];
      }
      assert parts[..|parts|] == parts;
    }
    assert added == [ref.requirement.name] + PartsOf(ref.dynamicParts) + PartsOf(elements);
  }

  // ---------------------------------------------------------------------
  // Equality and hashing
  // ---------------------------------------------------------------------

  const TwoTo32: int := 0x1_0000_0000
  const TwoTo31: int := 0x8000_0000

  /** `String.hashCode` before the final reinterpretation: `31 * h + c` on each
   *  character, modulo 2^32. */
  function HashBits(s: string): (h: int)
    ensures 0 <= h < TwoTo32
  {
    if s == [] then 0 else (31 * HashBits(s[..|s| - 1]) + s[|s| - 1] as int) % TwoTo32
  }

  /** The 32-bit pattern read as a Java `int`. */
  function ToInt32(u: int): (r: int)
    requires 0 <= u < TwoTo32
    ensures -TwoTo31 <= r < TwoTo31
    ensures (r - u) % TwoTo32 == 0
  {
    if u >= TwoTo31 then u - TwoTo32 else u
  }

  /** `String.hashCode`: the hash bits read as a Java `int`. */
  function JavaStringHash(s: string): (h: int)
    ensures -TwoTo31 <= h < TwoTo31
    ensures (h - HashBits(s)) % TwoTo32 == 0
  {
    ToInt32(HashBits(s))
  }

  /** `hashCode`: the hash of the capability definition's name. */
  function HashCode(ref: Reference): (h: int)
    ensures -TwoTo31 <= h < TwoTo31
  {
    JavaStringHash(ref.capability.definition.name)
  }

  /** The argument of `equals`: a `CapabilityReference`, some other
   *  `CapabilityReferenceRecorder`, or any other object (or null). */
  datatype Other = IsReference(ref: Reference) | OtherRecorder | NotRecorder

  /**
   * `equals` as written: anything that is not a recorder is unequal, and any
   * recorder is cast to `CapabilityReference`, which throws for a recorder
   * of another class.
   */
  function EqualsAsWritten(ref: Reference, other: Other): (r: Result<bool>)
    ensures r.Fail? <==> other.OtherRecorder?
    ensures r.Ok? ==> r.value == Equals(ref, other)
  {
    match other
    case NotRecorder => Ok(false)
    case OtherRecorder => Fail(RuntimeFailure("ClassCastException"))
    case IsReference(r) => Ok(ref.capability.definition.name == r.capability.definition.name)
  }

  /** `equals` with the intended type test: only a `CapabilityReference` can be equal. */
  function Equals(ref: Reference, other: Other): (r: bool)
    ensures r ==> other.IsReference? && HashCode(ref) == HashCode(other.ref)
  {
    other.IsReference? && ref.capability.definition.name == other.ref.capability.definition.name
  }

  /** The cast throws for every recorder that is not a `CapabilityReference`. */
  lemma EqualsAsWrittenThrows(ref: Reference)
    ensures EqualsAsWritten(ref, OtherRecorder) == Fail(RuntimeFailure("ClassCastException"))
    ensures Equals(ref, OtherRecorder) == false
  {
  }

  /** `equals` is an equivalence on references, and equal references hash alike. */
  lemma EqualsContract(a: Reference, b: Reference, c: Reference)
    ensures Equals(a, IsReference(a))
    ensures Equals(a, IsReference(b)) == Equals(b, IsReference(a))
    ensures Equals(a, IsReference(b)) && Equals(b, IsReference(c)) ==> Equals(a, IsReference(c))
    ensures Equals(a, IsReference(b)) ==> HashCode(a) == HashCode(b)
  {
  }
}
