/**
 * Address adoption: what the session does with each discovery report
 * `(a, info)` when it was created without an address. Whether `a` is on one
 * of the host's interfaces is asked afresh for every report; this model takes
 * that answer as an input `local` of the report, so it may differ between two
 * reports of the same address.
 */
module Adoption {
  import opened Wrappers
  import opened Amxb

  /** The part of the session a discovery can change: the adopted address and the keeper flag. */
  datatype Target = Target(address: string, keeper: bool)

  /** What adoption does to the connection: nothing, start the keeper, or destroy the socket. */
  datatype Effect = NoEffect | StartKeeper | DestroySocket

  datatype Step = Step(target: Target, effect: Effect)

  /** One discovery report, with the locality answer for its address at the time it arrived. */
  datatype Report = Report(discovery: Discovery, local: bool)

  /** No model was configured, or the beacon's `Model` tag names the configured one. */
  predicate ModelAccepted(model: Option<string>, info: map<string, string>)
  {
    model.None? || ("Model" in info && info["Model"] == model.value)
  }

  /**
   * The discovery callback: the model filter first; then a new, local
   * address is adopted, starting the keeper the first time and destroying
   * the socket (so that the keeper reconnects to it) afterwards.
   */
  function Adopt(model: Option<string>, t: Target, d: Discovery, local: bool): (s: Step)
    ensures s.effect == NoEffect <==> s.target == t
    ensures s.target != t ==>
      ModelAccepted(model, d.info) && local && t.address != d.address &&
      s.target == Target(d.address, true)
    ensures ModelAccepted(model, d.info) && local && t.address != d.address ==>
      s == Step(Target(d.address, true), if t.keeper then DestroySocket else StartKeeper)
    ensures s.effect == StartKeeper ==> !t.keeper
    ensures s.effect == DestroySocket ==> t.keeper
  {
    if !ModelAccepted(model, d.info) then Step(t, NoEffect)
    else if t.address != d.address && local then
      if !t.keeper then Step(Target(d.address, true), StartKeeper)
      else Step(Target(d.address, true), DestroySocket)
    else Step(t, NoEffect)
  }

  /**
   * Once the session holds the reported address (adopted now or before), a
   * repeat of the report changes nothing, whatever the locality answer then.
   * A report refused only because its address was not yet local is adopted
   * when repeated after the address has become local.
   */
  lemma AdoptIdempotent(model: Option<string>, t: Target, d: Discovery, local: bool, later: bool)
    ensures var s := Adopt(model, t, d, local);
      s.target.address == d.address ==> Adopt(model, s.target, d, later) == Step(s.target, NoEffect)
    ensures var s := Adopt(model, t, d, local);
      ModelAccepted(model, d.info) && t.address != d.address && !local && later ==>
        s.target == t && Adopt(model, s.target, d, later).target == Target(d.address, true)
  {
  }

  /** The session after a series of reports, and the effects in order. */
  function AdoptAll(model: Option<string>, t: Target, rs: seq<Report>): (Target, seq<Effect>)
    decreases |rs|
  {
    if rs == [] then (t, [])
    else
      var s := Adopt(model, t, rs[0].discovery, rs[0].local);
      var (t', effects) := AdoptAll(model, s.target, rs[1..]);
      (t', [s.effect] + effects)
  }

  /** How many times `e` occurs in `effects`. */
  function Count(effects: seq<Effect>, e: Effect): nat
  {
    if effects == [] then 0 else (if effects[0] == e then 1 else 0) + Count(effects[1..], e)
  }

  /**
   * Whatever the reports, the keeper is started at most once (never if it
   * already runs), it is on at the end exactly when it was on at the start or
   * was started, and every socket destruction comes after the keeper runs.
   */
  lemma {:induction false} KeeperStartsOnce(model: Option<string>, t: Target, rs: seq<Report>)
    ensures var (t', effects) := AdoptAll(model, t, rs);
      Count(effects, StartKeeper) <= (if t.keeper then 0 else 1) &&
      (t'.keeper <==> t.keeper || Count(effects, StartKeeper) == 1) &&
      (forall i :: 0 <= i < |effects| && effects[i] == DestroySocket ==> t.keeper || StartKeeper in effects[..i])
    decreases |rs|
  {
    if rs != [] {
      var s := Adopt(model, t, rs[0].discovery, rs[0].local);
      KeeperStartsOnce(model, s.target, rs[1..]);
      var (t', effects) := AdoptAll(model, t, rs);
      var rest := AdoptAll(model, s.target, rs[1..]).1;
      assert effects == [s.effect] + rest;
      forall i | 0 <= i < |effects| && effects[i] == DestroySocket
        ensures t.keeper || StartKeeper in effects[..i]
      {
        if i > 0 && !t.keeper {
          assert effects[i] == rest[i - 1];
          if s.effect == StartKeeper {
            assert effects[..i][0] == StartKeeper;
          } else {
            assert !s.target.keeper;
            assert StartKeeper in rest[..i - 1];
            assert rest[..i - 1] == effects[1..i];
          }
        }
      }
    }
  }

  /** With a model configured, reports from other models (or without a `Model` tag) are ignored outright. */
  lemma {:induction false} OtherModelsIgnored(model: Option<string>, t: Target, rs: seq<Report>)
    requires forall k :: 0 <= k < |rs| ==> !ModelAccepted(model, rs[k].discovery.info)
    ensures AdoptAll(model, t, rs).0 == t
    ensures Count(AdoptAll(model, t, rs).1, NoEffect) == |rs|
  {
    if rs != [] {
      OtherModelsIgnored(model, t, rs[1..]);
    }
  }
}
