/** URL-driven announcements (the Xur and weekly-reset posts). The
    announcement's infographic sits behind a redirecting URL; the settings
    record remembers where that URL last pointed, and when and how it was
    last checked. Admin commands switch autoposting on and off, set the
    infographic and post URLs, and re-edit every post already made.

    Following a link one redirect step is outside the model: its outcome
    and the clock are parameters of the operations that poll. */
module AutopostUrl {
  import opened Base
  import opened Text
  import Cfg
  import opened Rounding

  /** A wall-clock reading, as `datetime.now()` would give it. */
  type Time = int

  // ---------------------------------------------------------------------
  // The settings record
  // ---------------------------------------------------------------------

  /** The columns of the settings row, as one value. */
  datatype SettingsView = SettingsView(
    id: int,
    url: string,
    postUrl: string,
    redirectTarget: Option<string>,
    lastModified: Option<Time>,
    lastChecked: Option<Time>,
    watcherArmed: bool,
    autoannounceEnabled: bool)

  /** A newly constructed row: URLs left out fall back to the announcement's
      defaults, nothing has been polled yet and the watcher is not armed. */
  function Fresh(id: int, url: Option<string>, postUrl: Option<string>, enabled: bool,
                 defaults: Cfg.UrlDefaults): (v: SettingsView)
    ensures v.id == id && v.autoannounceEnabled == enabled && !v.watcherArmed
    ensures url.None? ==> v.url == defaults.gfxUrl
    ensures url.Some? ==> v.url == url.value
    ensures postUrl.None? ==> v.postUrl == defaults.postUrl
    ensures postUrl.Some? ==> v.postUrl == postUrl.value
    ensures v.redirectTarget.None? && v.lastModified.None? && v.lastChecked.None?
  {
    SettingsView(id,
      match url case Some(u) => u case None => defaults.gfxUrl,
      match postUrl case Some(p) => p case None => defaults.postUrl,
      None, None, None, false, enabled)
  }

  /** One poll of the infographic URL, which resolved to `resolved` at `now`:
      the target and the check time are always refreshed, the modification
      time only when the target moved or had never been recorded. */
  function UpdatedUrl(v: SettingsView, resolved: string, now: Time): (w: SettingsView)
    ensures w.redirectTarget == Some(resolved)
    ensures w.lastChecked == Some(now)
    ensures w.lastModified.Some?
    ensures (v.redirectTarget != Some(resolved) || v.lastModified.None?) ==> w.lastModified == Some(now)
    ensures (v.redirectTarget == Some(resolved) && v.lastModified.Some?) ==> w.lastModified == v.lastModified
    ensures w.(redirectTarget := v.redirectTarget, lastModified := v.lastModified, lastChecked := v.lastChecked) == v
  {
    var checked := v.(lastChecked := Some(now));
    var moved :=
      if Some(resolved) != checked.redirectTarget
      then checked.(redirectTarget := Some(resolved), lastModified := checked.lastChecked)
      else checked;
    if moved.lastModified.None? then moved.(lastModified := moved.lastChecked) else moved
  }

  /** Some URL field has never been filled in. */
  predicate NeedsInit(v: SettingsView) {
    v.redirectTarget.None? || v.lastChecked.None? || v.lastModified.None?
  }

  /** `initialise_url_params`: poll only when some URL field is unset. */
  function Initialised(v: SettingsView, resolved: string, now: Time): (w: SettingsView)
    ensures !NeedsInit(w)
    ensures !NeedsInit(v) ==> w == v
    ensures NeedsInit(v) ==> w == UpdatedUrl(v, resolved, now)
  {
    if NeedsInit(v) then UpdatedUrl(v, resolved, now) else v
  }

  /** Initialising twice is initialising once, whatever the second poll sees. */
  lemma InitialiseIdempotent(v: SettingsView, resolved: string, now: Time, resolved': string, now': Time)
    ensures Initialised(Initialised(v, resolved, now), resolved', now') == Initialised(v, resolved, now)
  {
  }

  /** One outcome of following the infographic URL while watching it. */
  datatype Poll =
    | Disconnected                       // the server dropped the connection
    | Resolved(url: string, at: Time)    // the URL led to `url`; `at` is the clock just after

  predicate IsChange(p: Poll, target: Option<string>) {
    p.Resolved? && Some(p.url) != target
  }

  /** The first poll that finds the URL pointing somewhere new. */
  function FirstChange(polls: seq<Poll>, target: Option<string>): (k: Option<nat>)
    ensures k.Some? ==> k.value < |polls| && IsChange(polls[k.value], target)
    ensures k.Some? ==> forall j :: 0 <= j < k.value ==> !IsChange(polls[j], target)
    ensures k.None? ==> forall j :: 0 <= j < |polls| ==> !IsChange(polls[j], target)
  {
    if polls == [] then None
    else if IsChange(polls[0], target) then Some(0)
    else match FirstChange(polls[1..], target)
      case None => None
      case Some(k) => Some(k + 1)
  }

  /** The number of polls that resolved (each one is followed by a sleep). */
  function ResolvedCount(polls: seq<Poll>): nat {
    if polls == [] then 0
    else ResolvedCount(polls[..|polls| - 1]) + (if polls[|polls| - 1].Resolved? then 1 else 0)
  }

  /** The settings row of one URL announcement. */
  class UrlPostSettings {
    var id: int
    var url: string
    var postUrl: string
    var redirectTarget: Option<string>
    var lastModified: Option<Time>
    var lastChecked: Option<Time>
    var watcherArmed: bool
    var autoannounceEnabled: bool

    function View(): SettingsView
      reads this
    {
      SettingsView(id, url, postUrl, redirectTarget, lastModified, lastChecked, watcherArmed, autoannounceEnabled)
    }

    constructor(id: int, url: Option<string>, postUrl: Option<string>, autoannounceEnabled: bool,
                defaults: Cfg.UrlDefaults)
      ensures View() == Fresh(id, url, postUrl, autoannounceEnabled, defaults)
    {
      this.id := id;
      this.url := match url case Some(u) => u case None => defaults.gfxUrl;
      this.postUrl := match postUrl case Some(p) => p case None => defaults.postUrl;
      this.redirectTarget := None;
      this.lastModified := None;
      this.lastChecked := None;
      this.watcherArmed := false;
      this.autoannounceEnabled := autoannounceEnabled;
    }

    /** `update_url`, where the link was followed to `resolved` at `now`. */
    method UpdateUrl(resolved: string, now: Time)
      modifies this
      ensures View() == UpdatedUrl(old(View()), resolved, now)
    {
      lastChecked := Some(now);
      if Some(resolved) != redirectTarget {
        redirectTarget := Some(resolved);
        lastModified := lastChecked;
      }
      if lastModified == None {
        lastModified := lastChecked;
      }
    }

    /** `initialise_url_params`. */
    method InitialiseUrlParams(resolved: string, now: Time)
      modifies this
      ensures View() == Initialised(old(View()), resolved, now)
    {
      if redirectTarget == None || lastChecked == None || lastModified == None {
        UpdateUrl(resolved, now);
      }
    }

    /** `wait_for_url_update` over the polls it makes: the watcher is armed,
        dropped connections are retried at once, a poll that finds the old
        target is followed by a sleep, and the first poll that finds a new
        target records it and disarms the watcher. When the polls run out
        without a change the source would go on polling; here the method
        returns `changed == false`. The check time is never touched. */
    method WaitForUrlUpdate(polls: seq<Poll>) returns (changed: bool, sleeps: nat)
      modifies this
      ensures changed <==> FirstChange(polls, old(redirectTarget)).Some?
      ensures changed ==>
        var k := FirstChange(polls, old(redirectTarget)).value;
        redirectTarget == Some(polls[k].url) && redirectTarget != old(redirectTarget)
        && lastModified == Some(polls[k].at) && !watcherArmed
        && sleeps == ResolvedCount(polls[..k])
      ensures !changed ==>
        redirectTarget == old(redirectTarget) && lastModified == old(lastModified) && watcherArmed
        && sleeps == ResolvedCount(polls)
      ensures id == old(id) && url == old(url) && postUrl == old(postUrl)
      ensures lastChecked == old(lastChecked) && autoannounceEnabled == old(autoannounceEnabled)
    {
      watcherArmed := true;
      sleeps := 0;
      changed := false;
      var i := 0;
      while i < |polls|
        invariant 0 <= i <= |polls|
        invariant forall j :: 0 <= j < i ==> !IsChange(polls[j], old(redirectTarget))
        invariant sleeps == ResolvedCount(polls[..i])
        invariant watcherArmed && !changed
        invariant redirectTarget == old(redirectTarget) && lastModified == old(lastModified)
        invariant id == old(id) && url == old(url) && postUrl == old(postUrl)
        invariant lastChecked == old(lastChecked) && autoannounceEnabled == old(autoannounceEnabled)
      {
        assert polls[..i + 1] == polls[..i] + [polls[i]];
        var poll := polls[i];
        if poll.Resolved? {
          if Some(poll.url) != redirectTarget {
            redirectTarget := Some(poll.url);
            lastModified := Some(poll.at);
            watcherArmed := false;
            changed := true;
            FirstChangeAt(polls, old(redirectTarget), i);
            return;
          }
          sleeps := sleeps + 1;
        }
        i := i + 1;
      }
      assert polls[..i] == polls;
    }
  }

  /** The change the watcher stops at is the first one. */
  lemma FirstChangeAt(polls: seq<Poll>, target: Option<string>, i: nat)
    requires i < |polls| && IsChange(polls[i], target)
    requires forall j :: 0 <= j < i ==> !IsChange(polls[j], target)
    ensures FirstChange(polls, target) == Some(i)
  {
  }

  /** Dropped connections alone never end the watch. */
  lemma DisconnectsNeverChange(polls: seq<Poll>, target: Option<string>)
    requires forall j :: 0 <= j < |polls| ==> polls[j] == Disconnected
    ensures FirstChange(polls, target) == None
    ensures ResolvedCount(polls) == 0
  {
    if polls != [] {
      DisconnectsNeverChange(polls[..|polls| - 1], target);
    }
  }

  // ---------------------------------------------------------------------
  // Command names
  // ---------------------------------------------------------------------

  /** `name.lower().replace(" ", "_")`: the slash-command name of an
      announcement. */
  function CommandName(name: string): (r: string)
    ensures |r| == |name|
    ensures ' ' !in r
    ensures forall i :: 0 <= i < |r| ==> !IsUpper(r[i])
    ensures forall i :: 0 <= i < |name| && name[i] != ' ' ==> r[i] == LowerChar(name[i])
    ensures forall i :: 0 <= i < |name| && name[i] == ' ' ==> r[i] == '_'
  {
    ReplaceChar(Lower(name), ' ', '_')
  }

  /** A normalised name is its own normal form. */
  lemma CommandNameIdempotent(name: string)
    ensures CommandName(CommandName(name)) == CommandName(name)
  {
    var r := CommandName(name);
    assert forall i :: 0 <= i < |r| ==> LowerChar(r[i]) == r[i];
  }

  /** The names of the two URL announcements. */
  lemma CommandNameExamples()
    ensures CommandName("Xur") == "xur"
    ensures CommandName("Reset") == "reset"
    ensures CommandName("Weekly Reset") == "weekly_reset"
  {
  }

  /** `embed_command_description or "{} post command".format(name)`. */
  function EmbedCommandDescription(description: Option<string>, name: string): (r: string)
    ensures description.Some? && description.value != [] ==> r == description.value
    ensures !(description.Some? && description.value != []) ==> r == name + " post command"
  {
    match description
    case Some(d) => if d != [] then d else name + " post command"
    case None => name + " post command"
  }

  // ---------------------------------------------------------------------
  // Correcting the posts already made
  // ---------------------------------------------------------------------

  /** The progress reported after the `done`-th of `n` channels:
      `round(20 * done / n) * 5`. */
  function Percent(done: nat, n: nat): (p: int)
    requires 0 < n
    ensures done <= n ==> 0 <= p <= 100
    ensures p % 5 == 0
    ensures done == n ==> p == 100
  {
    RoundedShareBounds(done, n);
    RoundHalfEven(20 * done, n) * 5
  }

  lemma RoundedShareBounds(done: nat, n: nat)
    requires 0 < n
    ensures done <= n ==> RoundHalfEven(20 * done, n) <= 20
    ensures done == n ==> RoundHalfEven(20 * done, n) == 20
  {
    if done <= n {
      RoundBounded(20 * done, n, 20);
    }
    if done == n {
      RoundWhole(20, n);
    }
  }

  /** What the correction pass does, in order. */
  datatype Action =
    | EditPost(channelId: int, messageId: int)   // re-edit the last announcement in a channel
    | ReportProgress(percent: int)               // "Updating posts: {}%"
    | ReportDone(corrected: int)                 // "{} posts corrected"

  /** What the pass does for channel `i`, `pct` being the progress
      reported so far: nothing for a channel without a message, else an
      edit, followed by a report when the rounded progress went up. */
  function Step(cs: seq<ChannelRecord>, i: nat, pct: int): seq<Action>
    requires i < |cs|
  {
    if cs[i].lastMsgId.None? then []
    else
      var p := Percent(i + 1, |cs|);
      [EditPost(cs[i].id, cs[i].lastMsgId.value)] + (if pct < p then [ReportProgress(p)] else [])
  }

  /** The progress reported once channel `i` is done. */
  function NextProgress(cs: seq<ChannelRecord>, i: nat, pct: int): int
    requires i < |cs|
  {
    if cs[i].lastMsgId.Some? && pct < Percent(i + 1, |cs|) then Percent(i + 1, |cs|) else pct
  }

  /** The loop of the pass from channel `i` on. */
  function LoopTrace(cs: seq<ChannelRecord>, i: nat, pct: int): seq<Action>
    requires i <= |cs|
    decreases |cs| - i
  {
    if i == |cs| then [] else Step(cs, i, pct) + LoopTrace(cs, i + 1, NextProgress(cs, i, pct))
  }

  /** The channels that have no announcement to edit. */
  function Skipped(cs: seq<ChannelRecord>): nat {
    if cs == [] then 0
    else Skipped(cs[..|cs| - 1]) + (if cs[|cs| - 1].lastMsgId.None? then 1 else 0)
  }

  /** Everything the correction pass does to the enabled channels `cs`. */
  function CorrectionTrace(cs: seq<ChannelRecord>): seq<Action> {
    LoopTrace(cs, 0, 0) + [ReportDone(|cs| - Skipped(cs))]
  }

  /** The loop of `rectify_announcement` over the enabled channel records. */
  method CorrectionPass(channels: seq<ChannelRecord>) returns (trace: seq<Action>)
    ensures trace == CorrectionTrace(channels)
  {
    var n := |channels|;
    var progress := 0;
    var noneCounter := 0;
    trace := [];
    var idx := 0;
    while idx < n
      invariant 0 <= idx <= n
      invariant trace + LoopTrace(channels, idx, progress) == LoopTrace(channels, 0, 0)
      invariant noneCounter == Skipped(channels[..idx])
    {
      ghost var before, reported := trace, progress;
      LoopUnfold(channels, idx, progress);
      SkippedStep(channels, idx);
      var record := channels[idx];
      if record.lastMsgId.None? {
        noneCounter := noneCounter + 1;
      } else {
        trace := trace + [EditPost(record.id, record.lastMsgId.value)];
        var p := Percent(idx + 1, n);
        if progress < p {
          progress := p;
          trace := trace + [ReportProgress(progress)];
        }
      }
      assert trace == before + Step(channels, idx, reported);
      assert progress == NextProgress(channels, idx, reported);
      idx := idx + 1;
      AppendAssoc(before, Step(channels, idx - 1, reported), LoopTrace(channels, idx, progress));
    }
    assert channels[..idx] == channels;
    trace := trace + [ReportDone(n - noneCounter)];
  }

  lemma LoopUnfold(cs: seq<ChannelRecord>, i: nat, pct: int)
    requires i < |cs|
    ensures LoopTrace(cs, i, pct) == Step(cs, i, pct) + LoopTrace(cs, i + 1, NextProgress(cs, i, pct))
  {
  }

  lemma SkippedStep(cs: seq<ChannelRecord>, i: nat)
    requires i < |cs|
    ensures Skipped(cs[..i + 1]) == Skipped(cs[..i]) + (if cs[i].lastMsgId.None? then 1 else 0)
  {
    assert cs[..i + 1][..i] == cs[..i];
  }

  lemma AppendAssoc<T>(a: seq<T>, b: seq<T>, c: seq<T>)
    ensures (a + b) + c == a + (b + c)
  {
  }

  // ---------------------------------------------------------------------
  // Properties of the correction pass
  // ---------------------------------------------------------------------

  /** The edits of a trace, in order. */
  function Edits(t: seq<Action>): seq<Action> {
    if t == [] then []
    else Edits(t[..|t| - 1]) + (if t[|t| - 1].EditPost? then [t[|t| - 1]] else [])
  }

  /** One edit per channel that has a last message, in channel order. */
  function EditsFor(cs: seq<ChannelRecord>): seq<Action> {
    if cs == [] then []
    else
      var c := cs[|cs| - 1];
      EditsFor(cs[..|cs| - 1]) + (if c.lastMsgId.Some? then [EditPost(c.id, c.lastMsgId.value)] else [])
  }

  lemma {:induction false} EditsAppend(t: seq<Action>, u: seq<Action>)
    ensures Edits(t + u) == Edits(t) + Edits(u)
    decreases |u|
  {
    if u == [] {
      assert t + u == t;
    } else {
      EditsAppend(t, u[..|u| - 1]);
      assert (t + u)[..|t + u| - 1] == t + u[..|u| - 1];
      assert (t + u)[|t + u| - 1] == u[|u| - 1];
    }
  }

  lemma {:induction false} EditsForAppend(cs: seq<ChannelRecord>, ds: seq<ChannelRecord>)
    ensures EditsFor(cs + ds) == EditsFor(cs) + EditsFor(ds)
    ensures Skipped(cs + ds) == Skipped(cs) + Skipped(ds)
    decreases |ds|
  {
    if ds == [] {
      assert cs + ds == cs;
    } else {
      EditsForAppend(cs, ds[..|ds| - 1]);
      assert (cs + ds)[..|cs + ds| - 1] == cs + ds[..|ds| - 1];
      assert (cs + ds)[|cs + ds| - 1] == ds[|ds| - 1];
    }
  }

  lemma EditsOne(a: Action)
    ensures Edits([a]) == (if a.EditPost? then [a] else [])
  {
    assert [a][..0] == [];
  }

  lemma EditsForOne(c: ChannelRecord)
    ensures EditsFor([c]) == (if c.lastMsgId.Some? then [EditPost(c.id, c.lastMsgId.value)] else [])
    ensures Skipped([c]) == (if c.lastMsgId.None? then 1 else 0)
  {
    assert [c][..0] == [];
  }

  lemma StepEdits(cs: seq<ChannelRecord>, i: nat, pct: int)
    requires i < |cs|
    ensures Edits(Step(cs, i, pct)) == EditsFor([cs[i]])
    ensures forall a :: a in Step(cs, i, pct) ==> !a.ReportDone?
  {
    EditsForOne(cs[i]);
    if cs[i].lastMsgId.Some? {
      var p := Percent(i + 1, |cs|);
      var edit := EditPost(cs[i].id, cs[i].lastMsgId.value);
      var report: seq<Action> := if pct < p then [ReportProgress(p)] else [];
      EditsAppend([edit], report);
      EditsOne(edit);
      if pct < p {
        EditsOne(ReportProgress(p));
      }
    }
  }

  /** The loop edits exactly the channels from `i` on that have a message,
      and never reports the end. */
  lemma {:induction false} LoopEdits(cs: seq<ChannelRecord>, i: nat, pct: int)
    requires i <= |cs|
    ensures Edits(LoopTrace(cs, i, pct)) == EditsFor(cs[i..])
    ensures forall a :: a in LoopTrace(cs, i, pct) ==> !a.ReportDone?
    decreases |cs| - i
  {
    if i < |cs| {
      var next := NextProgress(cs, i, pct);
      LoopEdits(cs, i + 1, next);
      StepEdits(cs, i, pct);
      EditsAppend(Step(cs, i, pct), LoopTrace(cs, i + 1, next));
      assert cs[i..] == [cs[i]] + cs[i + 1..];
      EditsForAppend([cs[i]], cs[i + 1..]);
    } else {
      assert cs[i..] == [];
    }
  }

  /** Every channel with a last message gets its post edited, in order, and
      none without one; the count reported at the end is the number of
      edits, which is the number of channels less the skipped ones. */
  lemma CorrectionEditsAndCount(cs: seq<ChannelRecord>)
    ensures Edits(CorrectionTrace(cs)) == EditsFor(cs)
    ensures CorrectionTrace(cs)[|CorrectionTrace(cs)| - 1] == ReportDone(|cs| - Skipped(cs))
    ensures |cs| - Skipped(cs) == |EditsFor(cs)|
    ensures forall k :: 0 <= k < |CorrectionTrace(cs)| - 1 ==> !CorrectionTrace(cs)[k].ReportDone?
  {
    LoopEdits(cs, 0, 0);
    assert cs[0..] == cs;
    EditsAppend(LoopTrace(cs, 0, 0), [ReportDone(|cs| - Skipped(cs))]);
    EditsOne(ReportDone(|cs| - Skipped(cs)));
    EditsForCount(cs);
    var t := CorrectionTrace(cs);
    forall k | 0 <= k < |t| - 1 ensures !t[k].ReportDone? {
      assert t[k] in LoopTrace(cs, 0, 0);
    }
  }

  lemma {:induction false} EditsForCount(cs: seq<ChannelRecord>)
    ensures |EditsFor(cs)| + Skipped(cs) == |cs|
  {
    if cs != [] {
      EditsForCount(cs[..|cs| - 1]);
    }
  }

  /** A progress report is a multiple of 5 between 5 and 100, comes right
      after an edit, and is higher than every report before it. */
  predicate ReportsWellFormed(t: seq<Action>, floor: int) {
    && (forall k :: 0 <= k < |t| && t[k].ReportProgress? ==>
          floor < t[k].percent <= 100 && t[k].percent % 5 == 0 && k > 0 && t[k - 1].EditPost?)
    && (forall k, l :: 0 <= k < l < |t| && t[k].ReportProgress? && t[l].ReportProgress? ==>
          t[k].percent < t[l].percent)
  }

  lemma StepReports(cs: seq<ChannelRecord>, i: nat, pct: int)
    requires i < |cs| && 0 <= pct
    ensures ReportsWellFormed(Step(cs, i, pct), pct)
    ensures forall k :: 0 <= k < |Step(cs, i, pct)| && Step(cs, i, pct)[k].ReportProgress? ==>
      Step(cs, i, pct)[k].percent <= NextProgress(cs, i, pct)
    ensures pct <= NextProgress(cs, i, pct) <= 100 || NextProgress(cs, i, pct) == pct
    ensures Step(cs, i, pct) != [] ==> Step(cs, i, pct)[0].EditPost?
  {
  }

  lemma {:induction false} LoopReports(cs: seq<ChannelRecord>, i: nat, pct: int)
    requires i <= |cs| && 0 <= pct
    ensures ReportsWellFormed(LoopTrace(cs, i, pct), pct)
    decreases |cs| - i
  {
    if i < |cs| {
      var next := NextProgress(cs, i, pct);
      StepReports(cs, i, pct);
      LoopReports(cs, i + 1, next);
      var step, rest := Step(cs, i, pct), LoopTrace(cs, i + 1, next);
      var t := step + rest;
      assert t == LoopTrace(cs, i, pct);
      forall k | 0 <= k < |t| && t[k].ReportProgress?
        ensures pct < t[k].percent <= 100 && t[k].percent % 5 == 0 && k > 0 && t[k - 1].EditPost?
      {
        if k >= |step| {
          assert t[k] == rest[k - |step|];
          if k - |step| > 0 {
            assert t[k - 1] == rest[k - |step| - 1];
          }
        }
      }
      forall k, l | 0 <= k < l < |t| && t[k].ReportProgress? && t[l].ReportProgress?
        ensures t[k].percent < t[l].percent
      {
        if l >= |step| {
          assert t[l] == rest[l - |step|];
          if k >= |step| {
            assert t[k] == rest[k - |step|];
          }
        }
      }
    }
  }

  /** Over the whole pass, reports are multiples of 5 in [5, 100], each
      right after an edit, and strictly increasing. */
  lemma CorrectionReports(cs: seq<ChannelRecord>)
    ensures ReportsWellFormed(CorrectionTrace(cs), 0)
  {
    LoopReports(cs, 0, 0);
    var loop := LoopTrace(cs, 0, 0);
    var t := CorrectionTrace(cs);
    assert forall k :: 0 <= k < |loop| ==> t[k] == loop[k];
  }

  /** When the last channel has a message the pass reports 100%. */
  lemma {:induction false} LoopReachesHundred(cs: seq<ChannelRecord>, i: nat, pct: int)
    requires i < |cs| && cs[|cs| - 1].lastMsgId.Some?
    requires 0 <= pct <= 100
    ensures pct == 100 || ReportProgress(100) in LoopTrace(cs, i, pct)
    decreases |cs| - i
  {
    var next := NextProgress(cs, i, pct);
    var step := Step(cs, i, pct);
    assert LoopTrace(cs, i, pct) == step + LoopTrace(cs, i + 1, next);
    if i == |cs| - 1 {
      assert Percent(i + 1, |cs|) == 100;
      if pct < 100 {
        assert step[1] == ReportProgress(100);
      }
    } else {
      LoopReachesHundred(cs, i + 1, next);
      if next == 100 && pct != 100 {
        assert step[1] == ReportProgress(100);
      }
    }
  }

  lemma CorrectionReachesHundred(cs: seq<ChannelRecord>)
    requires cs != [] && cs[|cs| - 1].lastMsgId.Some?
    ensures ReportProgress(100) in CorrectionTrace(cs)
  {
    LoopReachesHundred(cs, 0, 0);
  }

  // ---------------------------------------------------------------------
  // The admin commands
  // ---------------------------------------------------------------------

  /** The reply of the URL-setting commands. */
  datatype UrlReply =
    | Current(current: Option<string>, fallback: string)   // no URL given: the current one ("unset") and the default
    | Updated(url: string)                                 // the URL now stored

  datatype RectifyError = SettingsMissing   // row 0 absent: the embed is built from None

  /** One URL announcement: its defaults and its settings row 0 (null while
      the table holds no row). */
  class UrlAutoposts {
    const defaults: Cfg.UrlDefaults
    var settings: UrlPostSettings?

    constructor(defaults: Cfg.UrlDefaults, settings: UrlPostSettings?)
      ensures this.defaults == defaults && this.settings == settings
    {
      this.defaults := defaults;
      this.settings := settings;
    }

    /** `autopost_ctrl`: autoposting is switched on iff the option, lowercased,
        is `enable`; the row is created when absent. */
    method AutopostCtrl(option: string) returns (enabled: bool)
      modifies this, settings
      ensures enabled <==> Lower(option) == "enable"
      ensures settings != null && settings.autoannounceEnabled == enabled
      ensures old(settings) != null ==>
        settings == old(settings) && settings.View() == old(settings.View()).(autoannounceEnabled := enabled)
      ensures old(settings) == null ==>
        fresh(settings) && settings.View() == Fresh(0, None, None, enabled, defaults)
    {
      enabled := Lower(option) == "enable";
      if settings == null {
        settings := new UrlPostSettings(0, None, None, enabled, defaults);
      } else {
        settings.autoannounceEnabled := enabled;
      }
    }

    /** `gfx_url`: without a URL, report the current and default ones and
        change nothing; with one, store it lowercased, creating the row
        (and polling its URL once) when it is absent. */
    method GfxUrl(arg: Option<string>, resolved: string, now: Time) returns (reply: UrlReply)
      modifies this, settings
      ensures arg.None? ==> (settings == old(settings)
        && (settings != null ==> settings.View() == old(settings.View()))
        && reply == Current(if settings == null then None else Some(settings.url), defaults.gfxUrl))
      ensures arg.Some? ==> reply == Updated(Lower(arg.value)) && settings != null && settings.url == Lower(arg.value)
      ensures arg.Some? && old(settings) != null ==>
        settings == old(settings) && settings.View() == old(settings.View()).(url := Lower(arg.value))
      ensures arg.Some? && old(settings) == null ==>
        fresh(settings)
        && settings.View() == Initialised(Fresh(0, Some(Lower(arg.value)), None, true, defaults), resolved, now)
    {
      match arg
      case None =>
        reply := Current(if settings == null then None else Some(settings.url), defaults.gfxUrl);
      case Some(u) =>
        var url := Lower(u);
        if settings == null {
          var s := new UrlPostSettings(0, None, None, true, defaults);
          s.url := url;
          s.InitialiseUrlParams(resolved, now);
          settings := s;
        } else {
          settings.url := url;
        }
        reply := Updated(url);
    }

    /** `post_url`: as `gfx_url`, for the post link, with no polling. */
    method PostUrl(arg: Option<string>) returns (reply: UrlReply)
      modifies this, settings
      ensures arg.None? ==> (settings == old(settings)
        && (settings != null ==> settings.View() == old(settings.View()))
        && reply == Current(if settings == null then None else Some(settings.postUrl), defaults.postUrl))
      ensures arg.Some? ==> reply == Updated(Lower(arg.value)) && settings != null && settings.postUrl == Lower(arg.value)
      ensures arg.Some? && old(settings) != null ==>
        settings == old(settings) && settings.View() == old(settings.View()).(postUrl := Lower(arg.value))
      ensures arg.Some? && old(settings) == null ==>
        fresh(settings) && settings.View() == Fresh(0, None, Some(Lower(arg.value)), true, defaults)
    {
      match arg
      case None =>
        reply := Current(if settings == null then None else Some(settings.postUrl), defaults.postUrl);
      case Some(u) =>
        var url := Lower(u);
        if settings == null {
          var s := new UrlPostSettings(0, None, None, true, defaults);
          s.postUrl := url;
          settings := s;
        } else {
          settings.postUrl := url;
        }
        reply := Updated(url);
    }

    /** `rectify_announcement` over the rows of the channel table: the URL
        is polled (once by the command, once more while building the
        embed), then every enabled channel's post is corrected. Without a
        settings row the embed cannot be built and nothing is edited. */
    method RectifyAnnouncement(table: seq<ChannelRecord>, resolved: string, now: Time,
                               resolvedAgain: string, later: Time)
      returns (r: Result<seq<Action>, RectifyError>)
      modifies settings
      ensures old(settings) == null ==> r == Err(SettingsMissing)
      ensures old(settings) != null ==>
        settings.View() == UpdatedUrl(UpdatedUrl(old(settings.View()), resolved, now), resolvedAgain, later)
        && r == Ok(CorrectionTrace(EnabledOnly(table)))
    {
      if settings == null {
        return Err(SettingsMissing);
      }
      settings.UpdateUrl(resolved, now);
      var channels := EnabledOnly(table);
      settings.UpdateUrl(resolvedAgain, later);
      var trace := CorrectionPass(channels);
      r := Ok(trace);
    }
  }
}
