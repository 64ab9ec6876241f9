/**
 * The client-side modal binder: one page-wide binding of the activity modal, set by
 * `pcnlj_setup_modal` the first time it runs, and read by `pcnlj_show_modal`, which
 * either logs why it cannot open the modal or asks the host UI library to replace the
 * modal's content from the selected object's URL and then to show it.
 */
module ModalBinder {
  import opened Wrappers

  /** The bound modal. `signal` is `None` for an object without a `signal` property. */
  datatype Binding = Binding(id: string, signal: Option<string>, url: string)

  /** The externally visible effects of the script: console lines and host UI calls. */
  datatype Effect = Log(message: string) | ReplaceFromSignal(id: string, url: string) | ShowModal(id: string)

  /** The calls the page makes into the script. */
  datatype Event = SetupModal(id: string, signal: string, url: string) | ShowModalFor(refId: string)

  /** The binding variable together with everything the script has emitted so far. */
  datatype Trace = Trace(binding: Option<Binding>, effects: seq<Effect>)

  /** `pcnlj_setup_modal`: binds the modal when nothing is bound yet, otherwise keeps the binding. */
  function Setup(binding: Option<Binding>, id: string, signal: string, url: string): (b: Option<Binding>)
    ensures b.Some?
    ensures binding.Some? ==> b == binding
    ensures binding.None? ==> b == Some(Binding(id, Some(signal), url))
  {
    if binding.None? then Some(Binding(id, Some(signal), url)) else binding
  }

  /** The URL the modal content is fetched from for a selected object. */
  function SelectionUrl(b: Binding, refId: string): string
  {
    b.url + "&sel_ref_id=" + refId
  }

  /** `pcnlj_show_modal`: the effects of one call; the binding itself is never touched. */
  function Show(binding: Option<Binding>, refId: string): (effects: seq<Effect>)
    ensures binding.None? ==> effects == [Log("Modal not found.")]
    ensures binding.Some? && binding.value.signal.None? ==> effects == [Log("Signal missing.")]
    ensures binding.Some? && binding.value.signal.Some? ==>
      effects == [ReplaceFromSignal(binding.value.id, SelectionUrl(binding.value, refId)), ShowModal(binding.value.id)]
  {
    match binding
    case None => [Log("Modal not found.")]
    case Some(b) =>
      if b.signal.None? then [Log("Signal missing.")]
      else [ReplaceFromSignal(b.id, SelectionUrl(b, refId)), ShowModal(b.id)]
  }

  function Step(t: Trace, e: Event): Trace
  {
    match e
    case SetupModal(id, signal, url) => Trace(Setup(t.binding, id, signal, url), t.effects)
    case ShowModalFor(refId) => Trace(t.binding, t.effects + Show(t.binding, refId))
  }

  /** The script after a sequence of calls, starting from `pcnlj_modal = null`. */
  function Run(events: seq<Event>): Trace
  {
    if |events| == 0 then Trace(None, [])
    else Step(Run(events[..|events| - 1]), events[|events| - 1])
  }

  /** Reference definition: the binding made by the first setup call, if there was one. */
  function FirstSetup(events: seq<Event>): (b: Option<Binding>)
    ensures b.Some? ==> b.value.signal.Some?
  {
    if |events| == 0 then None
    else match events[0]
      case SetupModal(id, signal, url) => Some(Binding(id, Some(signal), url))
      case ShowModalFor(_) => FirstSetup(events[1..])
  }

  lemma {:induction false} FirstSetupSnoc(events: seq<Event>, e: Event)
    ensures FirstSetup(events + [e]) ==
      if FirstSetup(events).Some? then FirstSetup(events)
      else match e
        case SetupModal(id, signal, url) => Some(Binding(id, Some(signal), url))
        case ShowModalFor(_) => None
  {
    if |events| > 0 {
      assert (events + [e])[0] == events[0];
      assert (events + [e])[1..] == events[1..] + [e];
      FirstSetupSnoc(events[1..], e);
    }
  }

  /**
   * Setup is idempotent and showing never rebinds: after any sequence of calls the
   * binding is exactly the one the first setup call made, or `null` if there was none.
   */
  lemma {:induction false} RunBindsFirstSetup(events: seq<Event>)
    ensures Run(events).binding == FirstSetup(events)
  {
    if |events| > 0 {
      var init := events[..|events| - 1];
      var e := events[|events| - 1];
      assert events == init + [e];
      RunBindsFirstSetup(init);
      FirstSetupSnoc(init, e);
    }
  }

  /** A second setup call leaves the binding of the first in place. */
  lemma SetupIdempotent(binding: Option<Binding>, id1: string, signal1: string, url1: string,
                        id2: string, signal2: string, url2: string)
    ensures var once := Setup(binding, id1, signal1, url1);
      Setup(once, id2, signal2, url2) == once
  {
  }

  /**
   * Every binding the page can reach carries a signal, so "Signal missing." is never
   * logged, and before any setup call the script issues no host UI call at all.
   */
  lemma {:induction false} ReachableEffects(events: seq<Event>)
    ensures Run(events).binding.None? || Run(events).binding.value.signal.Some?
    ensures forall k :: 0 <= k < |Run(events).effects| ==> Run(events).effects[k] != Log("Signal missing.")
    ensures FirstSetup(events).None? ==>
      forall k :: 0 <= k < |Run(events).effects| ==> Run(events).effects[k] == Log("Modal not found.")
  {
    RunBindsFirstSetup(events);
    if |events| > 0 {
      var init := events[..|events| - 1];
      var e := events[|events| - 1];
      assert events == init + [e];
      ReachableEffects(init);
      RunBindsFirstSetup(init);
      FirstSetupSnoc(init, e);
    }
  }

  /**
   * Once the modal is bound, a show call appends exactly two host UI calls, in order:
   * replace the content from the selection URL, then show the modal.
   */
  lemma ShowAfterSetup(events: seq<Event>, refId: string)
    requires FirstSetup(events).Some?
    ensures var b := FirstSetup(events).value;
      Run(events + [ShowModalFor(refId)]) ==
        Trace(Some(b), Run(events).effects + [ReplaceFromSignal(b.id, SelectionUrl(b, refId)), ShowModal(b.id)])
  {
    RunBindsFirstSetup(events);
    var all := events + [ShowModalFor(refId)];
    assert all[..|all| - 1] == events;
    assert all[|all| - 1] == ShowModalFor(refId);
  }
}
