/** Types shared by the modules: an optional value, a result-or-error, and
    the per-channel autopost row that every announcement table stores. */
module Base {

  datatype Option<T> = None | Some(value: T)

  /** The outcome of an operation that the source may abort with an exception. */
  datatype Result<T, E> = Ok(value: T) | Err(error: E)

  /** One row of an autopost channel table (daily, weekly reset or Xur):
      the channel's id, the guild it belongs to, the id of the last
      announcement posted there (None: nothing posted yet) and whether
      autoposting is enabled for it. */
  datatype ChannelRecord = ChannelRecord(
    id: int,
    serverId: int,
    lastMsgId: Option<int>,
    enabled: bool)

  /** The rows a `select(...).where(table.enabled == True)` returns, in table order. */
  function EnabledOnly(rows: seq<ChannelRecord>): (r: seq<ChannelRecord>)
    ensures |r| <= |rows|
    ensures forall x :: x in r ==> x in rows && x.enabled
    ensures forall x :: x in rows && x.enabled ==> x in r
  {
    if rows == [] then []
    else if rows[0].enabled then [rows[0]] + EnabledOnly(rows[1..])
    else EnabledOnly(rows[1..])
  }

  /** `[f(x) for x in xs]` where `f` may raise: None as soon as one
      element fails, else every element's value in order. */
  function TryMap<A, B>(xs: seq<A>, f: A -> Option<B>): (r: Option<seq<B>>)
    ensures r.Some? ==> |r.value| == |xs|
  {
    if xs == [] then Some([])
    else
      match f(xs[0])
      case None => None
      case Some(y) =>
        match TryMap(xs[1..], f)
        case None => None
        case Some(ys) => Some([y] + ys)
  }

  /** The mapping succeeds exactly when `f` succeeds on every element, and
      then holds `f`'s value for each element at that element's position. */
  lemma {:induction false} TryMapSpec<A, B>(xs: seq<A>, f: A -> Option<B>)
    ensures TryMap(xs, f).Some? <==> forall i :: 0 <= i < |xs| ==> f(xs[i]).Some?
    ensures TryMap(xs, f).Some? ==> forall i :: 0 <= i < |xs| ==> f(xs[i]) == Some(TryMap(xs, f).value[i])
  {
    if xs != [] {
      TryMapSpec(xs[1..], f);
      assert forall i :: 1 <= i < |xs| ==> xs[i] == xs[1..][i - 1];
    }
  }

  /** The position at which `[f(x) for x in xs]` raises: the first element
      `f` fails on. */
  function FirstFailing<A, B>(xs: seq<A>, f: A -> Option<B>): (i: nat)
    requires exists k :: 0 <= k < |xs| && f(xs[k]).None?
    ensures i < |xs| && f(xs[i]).None?
    ensures forall j :: 0 <= j < i ==> f(xs[j]).Some?
  {
    if f(xs[0]).None? then 0
    else
      assert exists k :: 0 <= k < |xs[1..]| && f(xs[1..][k]).None? by {
        var k :| 0 <= k < |xs| && f(xs[k]).None?;
        assert xs[1..][k - 1] == xs[k];
      }
      var i := FirstFailing(xs[1..], f);
      assert forall j :: 1 <= j <= i ==> xs[j] == xs[1..][j - 1];
      i + 1
  }
}
