/** The permission check that guards the bot's admin commands: the
    required permissions are OR-ed into one mask, and a member passes when
    no required bit is missing from what the member is granted in the
    channel.

    A Discord permission word is a 64-bit flag set; it is modelled as the
    set of positions of its set bits, so that `|` is union, `&` is
    intersection and `~` is the complement within the 64 positions. */
module CustomChecks {

  /** The position of one permission bit in Discord's 64-bit word. */
  newtype Bit = b: int | 0 <= b < 64

  /** A permission word: the positions of its set bits. */
  type Permissions = set<Bit>

  const NONE: Permissions := {}
  /** `Permissions.MANAGE_WEBHOOKS`, bit 29 (0x2000_0000). */
  const MANAGE_WEBHOOKS: Permissions := {29}
  /** Every bit of the word: what `~` complements against. */
  const ALL: Permissions := set b: Bit | true

  /** `a | b` */
  function Or(a: Permissions, b: Permissions): Permissions {
    a + b
  }

  /** `~a` */
  function Not(a: Permissions): Permissions {
    ALL - a
  }

  /** `a & b` */
  function And(a: Permissions, b: Permissions): Permissions {
    a * b
  }

  /** `functools.reduce(operator.or_, [first, *rest])`, folded from the
      left: a bit is set in the result iff it is set in some argument. */
  function Reduce(first: Permissions, rest: seq<Permissions>): (r: Permissions)
    ensures forall b :: b in r <==> b in first || exists j :: 0 <= j < |rest| && b in rest[j]
    decreases |rest|
  {
    if rest == [] then first
    else
      var r := Reduce(Or(first, rest[0]), rest[1..]);
      assert forall j :: 1 <= j < |rest| ==> rest[j] == rest[1..][j - 1];
      r
  }

  /** Every argument's bits are in the reduced mask. */
  lemma ReduceIncludes(first: Permissions, rest: seq<Permissions>)
    ensures first <= Reduce(first, rest)
    ensures forall j :: 0 <= j < |rest| ==> rest[j] <= Reduce(first, rest)
  {
  }

  /** The reduced mask holds no bit beyond the arguments' bits: any mask
      that includes every argument includes the reduction. */
  lemma ReduceLeast(first: Permissions, rest: seq<Permissions>, m: Permissions)
    requires first <= m
    requires forall j :: 0 <= j < |rest| ==> rest[j] <= m
    ensures Reduce(first, rest) <= m
  {
  }

  /** The order of the arguments does not change the mask. */
  lemma ReduceOrder(first: Permissions, rest: seq<Permissions>, first': Permissions, rest': seq<Permissions>)
    requires multiset([first] + rest) == multiset([first'] + rest')
    ensures Reduce(first, rest) == Reduce(first', rest')
  {
    var r, r' := Reduce(first, rest), Reduce(first', rest');
    forall b | b in r ensures b in r' {
      var x := WitnessArgument(first, rest, b);
      assert x in multiset([first'] + rest');
      ArgumentIncluded(first', rest', x);
    }
    forall b | b in r' ensures b in r {
      var x := WitnessArgument(first', rest', b);
      assert x in multiset([first] + rest);
      ArgumentIncluded(first, rest, x);
    }
  }

  /** An argument that supplies a given bit of the reduction. */
  lemma WitnessArgument(first: Permissions, rest: seq<Permissions>, b: Bit) returns (x: Permissions)
    requires b in Reduce(first, rest)
    ensures x in [first] + rest && b in x
  {
    if b in first {
      x := first;
    } else {
      var j :| 0 <= j < |rest| && b in rest[j];
      x := rest[j];
      assert x == ([first] + rest)[j + 1];
    }
  }

  lemma ArgumentIncluded(first: Permissions, rest: seq<Permissions>, x: Permissions)
    requires x in [first] + rest
    ensures x <= Reduce(first, rest)
  {
    if x != first {
      var j :| 0 <= j < |[first] + rest| && ([first] + rest)[j] == x;
      assert rest[j - 1] == x;
    }
  }

  /** `~granted & required`: exactly the required permissions not granted. */
  function Missing(granted: Permissions, required: Permissions): (m: Permissions)
    ensures m <= required
    ensures m !! granted
    ensures m + (required * granted) == required
    ensures m == required - granted
  {
    And(Not(granted), required)
  }

  /** The parts of a command invocation the check looks at: whether it
      came from a guild, whether the channel is in the bot's cache, whether
      the invoking member is known, and the permissions that member holds in
      the channel (what `permissions_in` computes, taken as given). */
  datatype Invocation = Invocation(
    inGuild: bool,
    channelCached: bool,
    memberPresent: bool,
    granted: Permissions)

  datatype CheckResult =
    | Passed
    | OnlyInGuild                         // raised by `_guild_only`
    | AssertionFailed                     // the `assert` on member and channel
    | MissingPermissions(missing: Permissions)

  /** The check as the source writes it. When the channel is not cached
      the source fetches it but discards the result, so the assertion that
      the channel is a guild channel fails whatever the member holds. */
  function CheckAsWritten(ctx: Invocation, required: Permissions): (r: CheckResult)
    ensures !ctx.inGuild ==> r == OnlyInGuild
    ensures ctx.inGuild && !ctx.channelCached ==> r == AssertionFailed
    ensures r == Passed <==> ctx.inGuild && ctx.channelCached && ctx.memberPresent && required <= ctx.granted
    ensures ctx.inGuild && !ctx.memberPresent ==> r == AssertionFailed
    ensures ctx.inGuild && ctx.channelCached && ctx.memberPresent && !(required <= ctx.granted) ==>
      r == MissingPermissions(required - ctx.granted)
  {
    if !ctx.inGuild then OnlyInGuild
    else if !ctx.channelCached || !ctx.memberPresent then AssertionFailed
    else
      var missing := Missing(ctx.granted, required);
      if missing != NONE then MissingPermissions(missing) else Passed
  }

  /** The check with the fetched channel kept: whether the channel came
      from the cache or from the REST fetch does not matter. */
  function Check(ctx: Invocation, required: Permissions): (r: CheckResult)
    ensures !ctx.inGuild ==> r == OnlyInGuild
    ensures r == Passed <==> ctx.inGuild && ctx.memberPresent && required <= ctx.granted
    ensures ctx.inGuild && !ctx.memberPresent ==> r == AssertionFailed
    ensures ctx.inGuild && ctx.memberPresent && !(required <= ctx.granted) ==>
      r == MissingPermissions(required - ctx.granted)
    ensures r.MissingPermissions? ==> r.missing != NONE && r.missing == required - ctx.granted
  {
    if !ctx.inGuild then OnlyInGuild
    else if !ctx.memberPresent then AssertionFailed
    else
      var missing := Missing(ctx.granted, required);
      if missing != NONE then MissingPermissions(missing) else Passed
  }

  /** An invocation from an uncached guild channel that requires nothing
      is refused by the check as written and accepted by the corrected one. */
  lemma UncachedChannelRejected(granted: Permissions)
    ensures CheckAsWritten(Invocation(true, false, true, granted), NONE) == AssertionFailed
    ensures Check(Invocation(true, false, true, granted), NONE) == Passed
  {
  }

  /** The corrected check agrees with the one as written whenever the channel is cached. */
  lemma CheckAgreesWhenCached(ctx: Invocation, required: Permissions)
    requires ctx.channelCached
    ensures Check(ctx, required) == CheckAsWritten(ctx, required)
  {
  }

  /** `has_guild_permissions(first, *rest)`: the mask its check demands. */
  function HasGuildPermissions(first: Permissions, rest: seq<Permissions>): (required: Permissions)
    ensures first <= required
    ensures forall j :: 0 <= j < |rest| ==> rest[j] <= required
  {
    Reduce(first, rest)
  }

  /** The check built by `has_guild_permissions` passes exactly when the
      member, in a guild, holds every one of the listed permissions; when
      it refuses for missing permissions, the error carries exactly the
      listed bits the member lacks. */
  lemma PassesIffAllGranted(ctx: Invocation, first: Permissions, rest: seq<Permissions>)
    ensures Check(ctx, HasGuildPermissions(first, rest)) == Passed
      <==> ctx.inGuild && ctx.memberPresent && first <= ctx.granted
           && forall j :: 0 <= j < |rest| ==> rest[j] <= ctx.granted
    ensures Check(ctx, HasGuildPermissions(first, rest)).MissingPermissions? ==>
      forall b :: b in Check(ctx, HasGuildPermissions(first, rest)).missing
        <==> b !in ctx.granted && (b in first || exists j :: 0 <= j < |rest| && b in rest[j])
    ensures ctx.inGuild && ctx.memberPresent && !(first <= ctx.granted && forall j :: 0 <= j < |rest| ==> rest[j] <= ctx.granted) ==>
      Check(ctx, HasGuildPermissions(first, rest)).MissingPermissions?
  {
    if first <= ctx.granted && forall j :: 0 <= j < |rest| ==> rest[j] <= ctx.granted {
      ReduceLeast(first, rest, ctx.granted);
    }
  }
}
