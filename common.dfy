/**
 * Shared vocabulary of the patching engine: patch kinds, the per-target
 * record of applied patches, the failures the engine raises, and the
 * decimal rendering of numbers used in file names and command lines.
 */
module Common {

  datatype Option<+T> = None | Some(value: T)

  datatype Result<+T> = Ok(value: T) | Fail(error: Failure)

  /** Outcome of an operation that returns nothing (a Java `void` that may throw). */
  datatype Outcome = Pass | Failed(error: Failure)

  /** `Constants.BASE`: the cumulative id of an installation with no cumulative patch. */
  const BASE: string := "base"

  datatype PatchType = OneOff | Cumulative

  datatype LayerType = Layer | AddOn

  /** `PatchingTaskContext.Mode`. */
  datatype Mode = ApplyMode | RollbackMode

  /**
   * What a patchable target records about itself (`PatchableTarget.TargetInfo`):
   * its cumulative patch id and its one-off ids, most recent first.
   */
  datatype TargetInfo = TargetInfo(cumulative: string, oneOffs: seq<string>)

  /** `MutablePatchingTarget.isApplied`. */
  predicate IsApplied(t: TargetInfo, id: string)
  {
    id == t.cumulative || id in t.oneOffs
  }

  /**
   * `MutablePatchingTarget.apply`: a one-off becomes the most recent one-off,
   * a cumulative patch becomes the cumulative id.
   */
  function ApplyPatch(t: TargetInfo, id: string, kind: PatchType): (r: TargetInfo)
    ensures IsApplied(r, id)
    ensures kind == OneOff ==> r.cumulative == t.cumulative && r.oneOffs == [id] + t.oneOffs
    ensures kind == Cumulative ==> r.cumulative == id && r.oneOffs == t.oneOffs
  {
    match kind
    case OneOff => TargetInfo(t.cumulative, [id] + t.oneOffs)
    case Cumulative => TargetInfo(id, t.oneOffs)
  }

  /** The list `s` with every occurrence of `x` removed. */
  function Without(s: seq<string>, x: string): (r: seq<string>)
    ensures x !in r
    ensures forall y :: y in r <==> y in s && y != x
    ensures |r| <= |s|
  {
    if s == [] then []
    else if s[0] == x then Without(s[1..], x)
    else [s[0]] + Without(s[1..], x)
  }

  /**
   * `MutablePatchingTarget.rollback`: an id among the one-offs is removed from
   * them; the cumulative id falls back to BASE when it is the one rolled back.
   */
  function RollbackTarget(t: TargetInfo, id: string): (r: TargetInfo)
    ensures id != BASE ==> !IsApplied(r, id)
    ensures forall y :: y != id && IsApplied(t, y) ==> IsApplied(r, y)
    ensures forall y :: y in r.oneOffs <==> y in t.oneOffs && y != id
    ensures r.cumulative == if id == t.cumulative then BASE else t.cumulative
  {
    if id in t.oneOffs then
      var r := TargetInfo(t.cumulative, Without(t.oneOffs, id));
      if id == t.cumulative then TargetInfo(BASE, r.oneOffs) else r
    else if id == t.cumulative then TargetInfo(BASE, t.oneOffs)
    else t
  }

  /** The state a target was in before the patch recorded as its newest entry:
   *  the first one-off if there are any, the cumulative patch otherwise. */
  function NewestEntry(t: TargetInfo): (r: (string, PatchType))
    ensures t.oneOffs != [] ==> r == (t.oneOffs[0], OneOff)
    ensures t.oneOffs == [] ==> r == (t.cumulative, Cumulative)
  {
    if t.oneOffs == [] then (t.cumulative, Cumulative) else (t.oneOffs[0], OneOff)
  }

  function Last(s: seq<string>): string
    requires s != []
  {
    s[|s| - 1]
  }

  /** A target with no patch at all: BASE and no one-offs. */
  predicate IsReleaseBase(t: TargetInfo)
  {
    t.cumulative == BASE && t.oneOffs == []
  }

  /** A content item (`ContentItem`): its kind and its path; it is also the conflict key. */
  datatype ItemKind = MiscItem | ModuleItem | BundleItem
  datatype ContentItem = ContentItem(kind: ItemKind, path: string)

  /**
   * The reasons carried by a `PatchingException`.  `Cause` is the wrapping
   * performed by `new PatchingException(e)`.
   */
  datatype Reason =
    | FailedToResolvePatch(name: string, version: string)
    | DoesNotApply(appliesTo: string, version: string)
    | AlreadyApplied(id: string)
    | RequiresPatch(id: string)
    | IncompatiblePatch(id: string)
    | RollbackStateInvalid(id: string)
    | DuplicateLayer(layerType: LayerType, name: string)
    | NoSuchLayer(name: string)
    | InvalidRollbackInformation
    | PatchNotFoundInHistory(id: string)
    | ConflictsDetected(items: seq<ContentItem>)
    | BundlesNotSupported
    | CannotCreateDirectory(path: string)
    | Cause(cause: Failure)

  /** A Java throwable as the engine sees it. */
  datatype Failure =
    | PatchingException(reason: Reason)
    | IOException(message: string)
    | XmlException(message: string)
    | RuntimeFailure(message: string)

  /**
   * `rethrowException` (the same code in the runner and in the coordinator):
   * a `PatchingException` is returned unchanged, anything else is wrapped.
   */
  function Rethrow(e: Failure): (r: Failure)
    ensures r.PatchingException?
    ensures e.PatchingException? ==> r == e
    ensures !e.PatchingException? ==> r.reason.Cause? && r.reason.cause == e
  {
    if e.PatchingException? then e else PatchingException(Cause(e))
  }

  /** Rethrowing twice is rethrowing once. */
  lemma RethrowIdempotent(e: Failure)
    ensures Rethrow(Rethrow(e)) == Rethrow(e)
  {
  }

  /** The decimal digit for `d`. */
  function Digit(d: nat): (c: char)
    requires d < 10
    ensures '0' <= c <= '9'
    ensures c as int - '0' as int == d
  {
    ('0' as int + d) as char
  }

  /** `Integer.toString` on a non-negative number. */
  function NatToString(n: nat): (s: string)
    ensures |s| >= 1
    ensures forall i :: 0 <= i < |s| ==> '0' <= s[i] <= '9'
    ensures n < 10 <==> |s| == 1
    decreases n
  {
    if n < 10 then [Digit(n)] else NatToString(n / 10) + [Digit(n % 10)]
  }

  /** Distinct numbers have distinct decimal renderings. */
  lemma {:induction false} NatToStringInjective(m: nat, n: nat)
    requires NatToString(m) == NatToString(n)
    ensures m == n
    decreases m
  {
    var sm, sn := NatToString(m), NatToString(n);
    if m >= 10 && n >= 10 {
      assert sm[|sm| - 1] == Digit(m % 10) && sn[|sn| - 1] == Digit(n % 10);
      assert NatToString(m / 10) == sm[..|sm| - 1] == sn[..|sn| - 1] == NatToString(n / 10);
      NatToStringInjective(m / 10, n / 10);
    }
  }

  /** `Integer.toString` on any int. */
  function IntToString(n: int): (s: string)
    ensures n >= 0 ==> s == NatToString(n)
    ensures n < 0 ==> s == "-" + NatToString(-n)
  {
    if n >= 0 then NatToString(n) else "-" + NatToString(-n)
  }

  /** `new File(dir, name).getPath()`. */
  function Child(dir: string, name: string): (p: string)
    ensures |p| == |dir| + 1 + |name|
    ensures p[..|dir|] == dir && p[|dir|] == '/' && p[|dir| + 1..] == name
  {
    dir + "/" + name
  }

  /** The parts joined by `sep` (`StringJoiner`, or a `StringBuilder` appending
   *  the first part and then `sep` and each further part). */
  function Join(sep: string, xs: seq<string>): string
  {
    if xs == [] then ""
    else if |xs| == 1 then xs[0]
    else Join(sep, xs[..|xs| - 1]) + sep + xs[|xs| - 1]
  }

  /** Adding one more part to a non-empty join appends the separator and the part. */
  lemma JoinSnoc(sep: string, xs: seq<string>, x: string)
    requires xs != []
    ensures Join(sep, xs + [x]) == Join(sep, xs) + sep + x
  {
    assert (xs + [x])[..|xs|] == xs;
  }
}
