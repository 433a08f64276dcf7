/**
 * The benchmark page of the web client: the model selection, the run guard, one single-model
 * request per selected model, the result slots those requests fill, and the order the results
 * are shown in.
 *
 * The result map is a sequence of slots in insertion order, one per model; a JavaScript `Map`
 * keeps that order, and setting a key already present keeps its place. The requests run
 * concurrently; here each completion is one step, in whatever order they arrive.
 */
module BenchmarkPage {
  import opened Wrappers
  import opened Strings
  import opened Constants
  import opened Schemas
  import opened Sorting
  import opened DetectLanguage
  import opened BenchmarkEndpoint

  /** No model is listed twice. */
  predicate Distinct(ms: seq<Model>) {
    forall i, j :: 0 <= i < j < |ms| ==> ms[i] != ms[j]
  }

  /** `prev.filter((m) => m !== model)`. */
  function Without(prev: seq<Model>, model: Model): (r: seq<Model>)
    ensures forall m :: m in r <==> m in prev && m != model
    ensures |r| <= |prev|
    ensures Distinct(prev) ==> Distinct(r)
    ensures model !in prev ==> r == prev
  {
    if |prev| == 0 then []
    else
      var rest := Without(prev[1..], model);
      assert forall m :: m in prev[1..] ==> m in prev;
      assert Distinct(prev) ==> Distinct(prev[1..]) && prev[0] !in prev[1..];
      if prev[0] == model then rest else [prev[0]] + rest
  }

  /** In a selection without duplicates, removing the model at `k` keeps the others in their order. */
  lemma {:induction false} WithoutRemovesAt(prev: seq<Model>, model: Model, k: nat)
    requires Distinct(prev) && k < |prev| && prev[k] == model
    ensures Without(prev, model) == prev[..k] + prev[k + 1..]
  {
    assert Distinct(prev[1..]);
    if k == 0 {
      assert model !in prev[1..];
    } else {
      WithoutRemovesAt(prev[1..], model, k - 1);
      assert prev[0] != model;
      assert prev[1..][..k - 1] == prev[1..k] && prev[1..][k..] == prev[k + 1..];
      assert [prev[0]] + prev[1..k] == prev[..k];
    }
  }

  /** `WithoutRemovesAt` at every position that holds the model. */
  lemma WithoutRemovesEach(prev: seq<Model>, model: Model)
    ensures forall k :: Distinct(prev) && 0 <= k < |prev| && prev[k] == model ==>
      Without(prev, model) == prev[..k] + prev[k + 1..]
  {
    forall k | Distinct(prev) && 0 <= k < |prev| && prev[k] == model
      ensures Without(prev, model) == prev[..k] + prev[k + 1..]
    {
      WithoutRemovesAt(prev, model, k);
    }
  }

  /**
   * `toggleModel`: a selected model is removed and the others keep their order; any other model
   * is appended at the end.
   */
  function ToggleModel(prev: seq<Model>, model: Model): (r: seq<Model>)
    ensures model in prev ==> model !in r && forall m :: m != model ==> (m in r <==> m in prev)
    ensures forall k :: Distinct(prev) && 0 <= k < |prev| && prev[k] == model ==> r == prev[..k] + prev[k + 1..]
    ensures model !in prev ==> r == prev + [model]
    ensures Distinct(prev) ==> Distinct(r)
  {
    WithoutRemovesEach(prev, model);
    if model in prev then Without(prev, model) else prev + [model]
  }

  /** Toggling the same model twice restores which models are selected. */
  lemma ToggleTwice(prev: seq<Model>, model: Model)
    ensures forall m :: m in ToggleModel(ToggleModel(prev, model), model) <==> m in prev
  {
  }

  /** The initial selection, every model, lists no model twice; toggling keeps it so. */
  lemma SelectionDistinct()
    ensures Distinct(MODELS)
  {
    ModelsEnumerated();
  }

  /** One entry of the result map: a model and its result, `None` while it is pending. */
  datatype Slot = Slot(model: Model, result: Option<BenchmarkResult>)

  /** Some slot belongs to the model. */
  predicate HasSlot(slots: seq<Slot>, model: Model) {
    exists i :: 0 <= i < |slots| && slots[i].model == model
  }

  /** `new Map(prev).set(model, r)`: the model's slot is replaced in place, or a slot is appended. */
  function SetResult(slots: seq<Slot>, model: Model, r: Option<BenchmarkResult>): (s: seq<Slot>)
    ensures HasSlot(slots, model) ==> |s| == |slots|
    ensures !HasSlot(slots, model) ==> s == slots + [Slot(model, r)]
    ensures forall i :: 0 <= i < |slots| ==> s[i] == (if slots[i].model == model then Slot(model, r) else slots[i])
  {
    if HasSlot(slots, model) then
      seq(|slots|, i requires 0 <= i < |slots| => if slots[i].model == model then Slot(model, r) else slots[i])
    else slots + [Slot(model, r)]
  }

  /** `for (const model of selectedModels) initial.set(model, null)`. */
  function InitialSlots(selected: seq<Model>): (s: seq<Slot>)
    ensures forall i :: 0 <= i < |s| ==> s[i].result.None?
    ensures forall m :: m in selected <==> HasSlot(s, m)
    ensures forall i, j :: 0 <= i < j < |s| ==> s[i].model != s[j].model
    decreases |selected|
  {
    if |selected| == 0 then []
    else
      var init := selected[..|selected| - 1];
      var prev := InitialSlots(init);
      var m := selected[|selected| - 1];
      assert forall x :: x in selected <==> x in init || x == m;
      SetResultSlots(prev, m, None);
      SetResult(prev, m, None)
  }

  /** Setting a result gives the model a slot and keeps every other model's. */
  lemma SetResultSlots(slots: seq<Slot>, model: Model, r: Option<BenchmarkResult>)
    ensures forall x :: HasSlot(SetResult(slots, model, r), x) <==> x == model || HasSlot(slots, x)
  {
    var s := SetResult(slots, model, r);
    forall x ensures HasSlot(s, x) <==> x == model || HasSlot(slots, x) {
      if HasSlot(s, x) {
        var i :| 0 <= i < |s| && s[i].model == x;
        if i < |slots| {
          assert slots[i].model == x || x == model;
        }
      }
      if HasSlot(slots, x) {
        var i :| 0 <= i < |slots| && slots[i].model == x;
        assert s[i].model == x || x == model;
      }
      if x == model {
        if HasSlot(slots, model) {
          var i :| 0 <= i < |slots| && slots[i].model == model;
          assert s[i].model == model;
        } else {
          assert s[|slots|].model == model;
        }
      }
    }
  }

  /** With distinct models, the initial map lists them in selection order, all pending. */
  lemma {:induction false} InitialSlotsInOrder(selected: seq<Model>)
    requires Distinct(selected)
    ensures InitialSlots(selected) == seq(|selected|, i requires 0 <= i < |selected| => Slot(selected[i], None))
    decreases |selected|
  {
    if |selected| > 0 {
      var init := selected[..|selected| - 1];
      InitialSlotsInOrder(init);
      assert forall i :: 0 <= i < |init| ==> init[i] != selected[|selected| - 1];
    }
  }

  /** `canRun`: there is text besides whitespace, a model is selected, and no run is in progress. */
  predicate CanRun(text: string, selected: seq<Model>, loading: bool) {
    Trim(text) != "" && |selected| > 0 && !loading
  }

  /** What `handleRun` starts: the pending result map and the requests, one per selected model. */
  datatype Run = Run(slots: seq<Slot>, requests: seq<BenchmarkRequest>)

  /**
   * `handleRun`: nothing happens without text or without a selected model; otherwise every
   * selected model's slot is pending and one request goes out per model, each naming that model
   * alone, with the trimmed text and the Korean detection of the text.
   */
  function HandleRun(text: string, selected: seq<Model>, tone: ToneSettings): (r: Option<Run>)
    ensures r.None? <==> Trim(text) == "" || |selected| == 0
    ensures r.Some? ==> r.value.slots == InitialSlots(selected)
    ensures r.Some? ==> |r.value.requests| == |selected| && forall i :: 0 <= i < |selected| ==>
      r.value.requests[i] == BenchmarkRequest(Trim(text), IsKorean(text), [selected[i]], tone)
  {
    if Trim(text) == "" || |selected| == 0 then None
    else
      Some(Run(InitialSlots(selected),
               seq(|selected|, i requires 0 <= i < |selected| =>
                 BenchmarkRequest(Trim(text), IsKorean(text), [selected[i]], tone))))
  }

  /** An enabled run button always starts a run. */
  lemma CanRunStarts(text: string, selected: seq<Model>, loading: bool, tone: ToneSettings)
    requires CanRun(text, selected, loading)
    ensures HandleRun(text, selected, tone).Some?
  {
  }

  const PAGE_TRANSLATION_FAILED: string := "Translation failed"

  /**
   * One request settling: a response fills the model's slot with its first result; a failure
   * fills it with an entry holding no translation, zero duration and the error's message. No
   * other slot changes.
   */
  function Complete(slots: seq<Slot>, model: Model, outcome: Attempt<seq<BenchmarkResult>>): (s: seq<Slot>)
    requires outcome.Returned? ==> |outcome.value| > 0
    ensures outcome.Returned? ==> s == SetResult(slots, model, Some(outcome.value[0]))
    ensures outcome.Threw? ==>
      s == SetResult(slots, model, Some(BenchmarkResult(model, "", 0, Some(MessageOr(outcome.reason, PAGE_TRANSLATION_FAILED)))))
  {
    match outcome
    case Returned(results) => SetResult(slots, model, Some(results[0]))
    case Threw(e) => SetResult(slots, model, Some(BenchmarkResult(model, "", 0, Some(MessageOr(e, PAGE_TRANSLATION_FAILED)))))
  }

  /**
   * The page while requests are out: the result slots, the count of requests not yet settled, and
   * the loading flag that disables the run button.
   */
  datatype RunState = RunState(slots: seq<Slot>, pending: int, loading: bool)

  /** What `handleRun` leaves: the pending map, one outstanding request per selected model, and loading. */
  function StartRun(run: Run, selected: seq<Model>): (st: RunState)
    ensures st.slots == run.slots && st.pending == |selected| && st.loading
  {
    RunState(run.slots, |selected|, true)
  }

  /**
   * One request settling, with its `finally`: the slot is filled, the count drops by one, and
   * loading ends when it reaches zero.
   */
  function Settled(st: RunState, model: Model, outcome: Attempt<seq<BenchmarkResult>>): (st': RunState)
    requires outcome.Returned? ==> |outcome.value| > 0
    ensures st'.slots == Complete(st.slots, model, outcome)
    ensures st'.pending == st.pending - 1
    ensures st'.loading <==> st.loading && st.pending != 1
  {
    RunState(Complete(st.slots, model, outcome), st.pending - 1, if st.pending - 1 == 0 then false else st.loading)
  }

  /** Every response the server sends holds at least one result. */
  predicate Answered(c: (Model, Attempt<seq<BenchmarkResult>>)) {
    c.1.Returned? ==> |c.1.value| > 0
  }

  /** The requests settling one after another, in the order given. */
  function SettleAll(st: RunState, cs: seq<(Model, Attempt<seq<BenchmarkResult>>)>): RunState
    requires forall i :: 0 <= i < |cs| ==> Answered(cs[i])
    decreases |cs|
  {
    if |cs| == 0 then st
    else
      assert Answered(cs[0]);
      SettleAll(Settled(st, cs[0].0, cs[0].1), cs[1..])
  }

  /**
   * Loading lasts while any request is out: it is still on after fewer settlements than requests,
   * and off once every request has settled, whatever order they settle in.
   */
  lemma {:induction false} LoadingUntilAllSettled(st: RunState, cs: seq<(Model, Attempt<seq<BenchmarkResult>>)>)
    requires forall i :: 0 <= i < |cs| ==> Answered(cs[i])
    requires st.loading && 0 < st.pending && |cs| <= st.pending
    ensures SettleAll(st, cs).pending == st.pending - |cs|
    ensures SettleAll(st, cs).loading <==> |cs| < st.pending
    decreases |cs|
  {
    if |cs| > 0 {
      assert Answered(cs[0]);
      var st1 := Settled(st, cs[0].0, cs[0].1);
      assert SettleAll(st, cs) == SettleAll(st1, cs[1..]);
      if |cs| == 1 {
        assert SettleAll(st1, cs[1..]) == st1;
      } else {
        LoadingUntilAllSettled(st1, cs[1..]);
      }
    }
  }

  /** A run of the selected models stops loading exactly when all of their requests have settled. */
  lemma RunEndsWithLastResponse(text: string, selected: seq<Model>, tone: ToneSettings,
                                cs: seq<(Model, Attempt<seq<BenchmarkResult>>)>)
    requires HandleRun(text, selected, tone).Some?
    requires forall i :: 0 <= i < |cs| ==> Answered(cs[i])
    requires |cs| <= |selected|
    ensures SettleAll(StartRun(HandleRun(text, selected, tone).value, selected), cs).loading <==> |cs| < |selected|
  {
    LoadingUntilAllSettled(StartRun(HandleRun(text, selected, tone).value, selected), cs);
  }

  // ---------------------------------------------------------------------------------------------
  // Display order

  function Duration(s: Slot): int
    requires s.result.Some?
  {
    s.result.value.durationMs
  }

  function DurationOrZero(s: Slot): int {
    if s.result.Some? then s.result.value.durationMs else 0
  }

  /** The slots that hold a result, in order. */
  function Done(slots: seq<Slot>): (r: seq<Slot>)
    ensures forall i :: 0 <= i < |r| ==> r[i].result.Some?
    ensures multiset(r) <= multiset(slots)
  {
    if |slots| == 0 then []
    else
      var init := slots[..|slots| - 1];
      assert slots == init + [slots[|slots| - 1]];
      Done(init) + (if slots[|slots| - 1].result.Some? then [slots[|slots| - 1]] else [])
  }

  /** The slots still pending, in order. */
  function Pending(slots: seq<Slot>): (r: seq<Slot>)
    ensures forall i :: 0 <= i < |r| ==> r[i].result.None?
  {
    if |slots| == 0 then []
    else
      var init := slots[..|slots| - 1];
      Pending(init) + (if slots[|slots| - 1].result.None? then [slots[|slots| - 1]] else [])
  }

  /** The finished and the pending slots together are all the slots, each exactly once. */
  lemma {:induction false} DonePendingPartition(slots: seq<Slot>)
    ensures multiset(Done(slots)) + multiset(Pending(slots)) == multiset(slots)
  {
    if |slots| > 0 {
      var init := slots[..|slots| - 1];
      var last := slots[|slots| - 1];
      DonePendingPartition(init);
      assert slots == init + [last];
      assert multiset(slots) == multiset(init) + multiset{last};
      if last.result.Some? {
        assert Done(slots) == Done(init) + [last];
        assert Pending(slots) == Pending(init);
      } else {
        assert Done(slots) == Done(init);
        assert Pending(slots) == Pending(init) + [last];
      }
    }
  }

  /**
   * `sortedEntries`: the order a stable sort with the page's comparator produces. The comparator
   * puts every pending slot after every finished one and orders finished slots by duration, so
   * the stable result is the finished slots by duration followed by the pending ones in map order.
   */
  function SortedEntries(slots: seq<Slot>): (r: seq<Slot>)
    ensures multiset(r) == multiset(slots)
  {
    DonePendingPartition(slots);
    SortBy(Done(slots), DurationOrZero) + Pending(slots)
  }

  /** In the display order every finished slot precedes every pending one, and finished slots go by ascending duration. */
  lemma SortedEntriesOrder(slots: seq<Slot>)
    ensures var r := SortedEntries(slots);
      && (forall i, j :: 0 <= i < j < |r| && r[i].result.None? ==> r[j].result.None?)
      && (forall i, j :: 0 <= i < j < |r| && r[j].result.Some? ==> r[i].result.Some? && Duration(r[i]) <= Duration(r[j]))
  {
    var done := SortBy(Done(slots), DurationOrZero);
    SameAllDone(done, Done(slots));
    var r := SortedEntries(slots);
    assert forall i :: |done| <= i < |r| ==> r[i].result.None?;
  }

  /** A permutation of finished slots holds finished slots only. */
  lemma SameAllDone(a: seq<Slot>, b: seq<Slot>)
    requires multiset(a) == multiset(b)
    requires forall i :: 0 <= i < |b| ==> b[i].result.Some?
    ensures forall i :: 0 <= i < |a| ==> a[i].result.Some?
  {
    forall i | 0 <= i < |a| ensures a[i].result.Some? {
      SameElements(a, b, a[i]);
    }
  }
}
