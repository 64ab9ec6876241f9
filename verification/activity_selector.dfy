/**
 * The repository explorer that picks a Nolej object: which nodes are clickable, what a
 * node links to, the click handler that opens the activity modal, and the command
 * dispatch of the selector.
 */
module ActivitySelector {
  import opened Wrappers
  import ActivityTree
  import ModalBinder
  import PhpText

  /** An explorer node; `child` is the object's reference id, a tree row's integer key. */
  datatype ExplorerNode = ExplorerNode(child: nat)

  /** The reference id as PHP interpolates it into a string. */
  function RefIdText(node: ExplorerNode): string
  {
    PhpText.NatToString(node.child)
  }

  /**
   * `isNodeClickable`: a node the explorer would not make clickable stays unclickable;
   * otherwise it is clickable when the query for the object's distinct generation
   * timestamps returns at least one row. `documentRows` are the object's activity rows.
   */
  function IsNodeClickable(parentClickable: bool, documentRows: seq<ActivityTree.Row>): (clickable: bool)
    ensures !parentClickable ==> !clickable
    ensures parentClickable ==> (clickable <==> |ActivityTree.Timestamps(documentRows)| > 0)
  {
    parentClickable && |ActivityTree.Timestamps(documentRows)| > 0
  }

  /**
   * A node is clickable exactly when the explorer allows it and the activity modal it
   * opens has at least one group, so the modal's "first group" label is always defined.
   */
  lemma ClickableIffModalHasGroups(parentClickable: bool, rows: seq<ActivityTree.Row>,
                                   labels: ActivityTree.Labels, httpPath: string,
                                   targetUrl: string, documentId: string)
    ensures var data := ActivityTree.GroupRecords(ActivityTree.Batches(rows), labels);
      && (IsNodeClickable(parentClickable, rows) <==> parentClickable && |data| > 0)
      && (IsNodeClickable(parentClickable, rows) ==>
            ActivityTree.TreeEnvironment(data, httpPath, targetUrl, documentId).first.Some?)
  {
    ActivityTree.BatchesDecompose(rows);
    if |rows| > 0 {
      assert rows[0].generated in ActivityTree.Timestamps(rows);
    } else {
      assert ActivityTree.Timestamps(rows) == {};
    }
  }

  /** `getNodeHref`: nodes never navigate; the click handler opens the modal instead. */
  function NodeHref(node: ExplorerNode): (href: string)
    ensures href == "#"
  {
    "#"
  }

  const OnClickPrefix := "event.stopPropagation(); event.preventDefault(); pcnlj_show_modal('"
  const OnClickSuffix := "'); return false;"

  /**
   * `getNodeOnClick`: stop the event and call the modal binder with the node's reference
   * id. Between the fixed prefix and suffix the handler holds only decimal digits, so the
   * interpolated id can neither close the single-quoted literal nor start an escape.
   */
  function NodeOnClick(node: ExplorerNode): (h: string)
    ensures |h| > |OnClickPrefix| + |OnClickSuffix|
    ensures h[..|OnClickPrefix|] == OnClickPrefix
    ensures h[|h| - |OnClickSuffix|..] == OnClickSuffix
    ensures forall i :: |OnClickPrefix| <= i < |h| - |OnClickSuffix| ==> PhpText.IsDigit(h[i])
  {
    var id := RefIdText(node);
    var h := OnClickPrefix + id + OnClickSuffix;
    assert forall i :: |OnClickPrefix| <= i < |h| - |OnClickSuffix| ==> h[i] == id[i - |OnClickPrefix|];
    h
  }

  /** The characters of `s` before its first single quote. */
  function UpToQuote(s: string): (p: string)
    ensures p <= s && '\'' !in p
    ensures |p| < |s| ==> s[|p|] == '\''
  {
    if |s| == 0 || s[0] == '\'' then [] else [s[0]] + UpToQuote(s[1..])
  }

  /**
   * The argument a click handler of the selector's shape passes to `pcnlj_show_modal`: the
   * single-quoted text after the prefix, provided the handler ends right after it.
   */
  function ShowModalArgument(handler: string): (arg: Option<string>)
    ensures arg.Some? ==> handler == OnClickPrefix + arg.value + OnClickSuffix
  {
    if |handler| < |OnClickPrefix| || handler[..|OnClickPrefix|] != OnClickPrefix then None
    else
      var rest := handler[|OnClickPrefix|..];
      var arg := UpToQuote(rest);
      if rest[|arg|..] == OnClickSuffix then Some(arg) else None
  }

  lemma {:induction false} UpToQuoteOfQuoted(a: string, b: string)
    requires '\'' !in a && |b| > 0 && b[0] == '\''
    ensures UpToQuote(a + b) == a
  {
    if |a| > 0 {
      assert (a + b)[1..] == a[1..] + b;
      UpToQuoteOfQuoted(a[1..], b);
    } else {
      assert a + b == b;
    }
  }

  /** Any argument without a single quote is read back from a handler of the selector's shape. */
  lemma ShowModalArgumentOfQuoteFree(arg: string)
    requires '\'' !in arg
    ensures ShowModalArgument(OnClickPrefix + arg + OnClickSuffix) == Some(arg)
  {
    var h := OnClickPrefix + arg + OnClickSuffix;
    assert h[..|OnClickPrefix|] == OnClickPrefix;
    var rest := h[|OnClickPrefix|..];
    assert rest == arg + OnClickSuffix;
    UpToQuoteOfQuoted(arg, OnClickSuffix);
    assert rest[|arg|..] == OnClickSuffix;
  }

  lemma DigitsHaveNoQuote(s: string)
    requires PhpText.AllDigits(s)
    ensures '\'' !in s
  {
    forall i | 0 <= i < |s|
      ensures s[i] != '\''
    {
      assert PhpText.IsDigit(s[i]);
    }
  }

  /** Every node's reference id reaches `pcnlj_show_modal` as its decimal text. */
  lemma OnClickPassesRefId(node: ExplorerNode)
    ensures ShowModalArgument(NodeOnClick(node)) == Some(RefIdText(node))
  {
    DigitsHaveNoQuote(RefIdText(node));
    ShowModalArgumentOfQuoteFree(RefIdText(node));
  }

  /**
   * Clicking a node after the modal was set up replaces the modal's content from the
   * bound URL extended with that node's reference id, then shows the modal.
   */
  lemma ClickOpensModalForNode(events: seq<ModalBinder.Event>, node: ExplorerNode)
    requires ModalBinder.FirstSetup(events).Some?
    ensures ShowModalArgument(NodeOnClick(node)).Some?
    ensures var b := ModalBinder.FirstSetup(events).value;
      var refId := ShowModalArgument(NodeOnClick(node)).value;
      ModalBinder.Run(events + [ModalBinder.ShowModalFor(refId)]).effects ==
        ModalBinder.Run(events).effects
        + [ModalBinder.ReplaceFromSignal(b.id, b.url + "&sel_ref_id=" + RefIdText(node)), ModalBinder.ShowModal(b.id)]
  {
    OnClickPassesRefId(node);
    ModalBinder.ShowAfterSetup(events, RefIdText(node));
  }

  /** The selector's only command. */
  datatype SelectorCommand = ActivityModal

  function SelectorCommandName(c: SelectorCommand): string
  {
    match c
    case ActivityModal => "activityModal"
  }

  /** `executeCommand`: only "activityModal" is handled; anything else raises. */
  function ExecuteCommand(cmd: string): (r: Result<SelectorCommand, string>)
    ensures r.Success? <==> cmd == "activityModal"
    ensures r.Success? ==> SelectorCommandName(r.value) == cmd
    ensures r.Failure? ==> r.error == "Unknown command: '" + cmd + "'"
  {
    if cmd == "activityModal" then Success(ActivityModal) else Failure("Unknown command: '" + cmd + "'")
  }

  /** Every selector command's name is dispatched back to that command. */
  lemma SelectorCommandRoundTrip(c: SelectorCommand)
    ensures ExecuteCommand(SelectorCommandName(c)) == Success(c)
  {
  }
}
