/**
 * The page-component controller: the command whitelist, the selection form with its
 * preselection of the stored pair, the two-key property record written on save, the
 * success gating of create/update, and the three-way rendering of a stored activity.
 *
 * Host services (language lookup, date formatter, `sprintf` with the localised summary
 * text, the H5P renderer, persistence and the join query) are function parameters.
 */
module PageComponent {
  import opened Wrappers
  import PhpText

  // ---------------------------------------------------------------------------
  // Command dispatch
  // ---------------------------------------------------------------------------

  /** The commands the controller dispatches to a handler of the same name. */
  datatype Command = Create | Save | Edit | Update | Cancel

  function CommandName(c: Command): string
  {
    match c
    case Create => "create"
    case Save => "save"
    case Edit => "edit"
    case Update => "update"
    case Cancel => "cancel"
  }

  const CommandNames: set<string> := {"create", "save", "edit", "update", "cancel"}

  /**
   * `executeCommand`: an inactive plugin refuses every command before the command is
   * read; an active one dispatches exactly the whitelisted commands and raises
   * "Unknown command" for anything else.
   */
  function ExecuteCommand(pluginActive: bool, cmd: string): (r: Result<Command, string>)
    ensures !pluginActive ==> r == Failure("Plugin not active.")
    ensures pluginActive ==> (r.Success? <==> cmd in CommandNames)
    ensures r.Success? ==> CommandName(r.value) == cmd
    ensures pluginActive && r.Failure? ==> r.error == "Unknown command: '" + cmd + "'"
  {
    if !pluginActive then Failure("Plugin not active.")
    else if cmd == "create" then Success(Create)
    else if cmd == "save" then Success(Save)
    else if cmd == "edit" then Success(Edit)
    else if cmd == "update" then Success(Update)
    else if cmd == "cancel" then Success(Cancel)
    else Failure("Unknown command: '" + cmd + "'")
  }

  /** Every command's name is dispatched back to that command, and only while the plugin is active. */
  lemma CommandNameRoundTrip(c: Command, pluginActive: bool)
    ensures ExecuteCommand(pluginActive, CommandName(c)) == (if pluginActive then Success(c) else Failure("Plugin not active."))
  {
  }

  // ---------------------------------------------------------------------------
  // Host services
  // ---------------------------------------------------------------------------

  /** The host language service and whether the sibling Nolej plugin (which owns the prefix) is loaded. */
  datatype Lang = Lang(nolejLoaded: bool, prefix: string, lookup: string -> string)

  /** `txt`: the prefixed language entry, or the key between dashes when the Nolej plugin is missing. */
  function Txt(lang: Lang, key: string): (s: string)
    ensures !lang.nolejLoaded ==> |s| == |key| + 2 && s[0] == '-' && s[|s| - 1] == '-' && s[1..|s| - 1] == key
    ensures lang.nolejLoaded ==> s == lang.lookup(lang.prefix + "_" + key)
  {
    if !lang.nolejLoaded then "-" + key + "-" else lang.lookup(lang.prefix + "_" + key)
  }

  /** Without the Nolej plugin the fallback texts tell keys apart: each shows its own key. */
  lemma TxtFallbackShowsKey(lang: Lang, k1: string, k2: string)
    requires !lang.nolejLoaded
    ensures Txt(lang, k1) == Txt(lang, k2) <==> k1 == k2
  {
    var s1, s2 := Txt(lang, k1), Txt(lang, k2);
    if s1 == s2 {
      assert k1 == s1[1..|s1| - 1] == s2[1..|s2| - 1] == k2;
    }
  }

  /** One row of the document/activity join: the document title and the activity type. */
  datatype JoinRow = JoinRow(title: string, kind: string)

  datatype Services = Services(
    lang: Lang,
    formatDate: int -> string,
    h5pHtml: int -> string,
    sprintf: (string, string, string) -> string)

  /** Page-component properties as the host stores them: string keys to string values. */
  type Properties = map<string, string>

  // ---------------------------------------------------------------------------
  // Rendering a stored activity
  // ---------------------------------------------------------------------------

  const NotFound := "<p>Activity not found!</p>"
  const DoesNotExist := "<p>Activity does not exist!</p>"

  /** The edit-mode summary: the localised sentence filled with the type label and the title. */
  function Summary(row: JoinRow, svc: Services): string
  {
    svc.sprintf("<p>" + Txt(svc.lang, "activities_selected") + "</p>",
                Txt(svc.lang, "activities_" + row.kind), row.title)
  }

  /**
   * `getElementHTML`. `join` is the first row of the document/activity join for a content
   * id, the id being passed to the query as an integer.
   */
  function GetElementHTML(mode: string, props: Properties, join: int -> Option<JoinRow>, svc: Services): (html: string)
    ensures "content_id" !in props ==> html == NotFound
    ensures mode != "edit" && "content_id" in props ==>
      html == svc.h5pHtml(PhpText.IntCast(props["content_id"]))
    ensures mode == "edit" && "content_id" in props ==>
      match join(PhpText.IntCast(props["content_id"]))
      case None => html == DoesNotExist
      case Some(row) => html == Summary(row, svc)
  {
    if mode != "edit" then
      if "content_id" !in props then NotFound
      else svc.h5pHtml(PhpText.IntCast(props["content_id"]))
    else if "content_id" !in props then NotFound
    else
      match join(PhpText.IntCast(props["content_id"]))
      case Some(row) => Summary(row, svc)
      case None => DoesNotExist
  }

  /** The rendering depends on the stored `content_id` alone: `document_id` is never consulted. */
  lemma ElementHTMLIgnoresDocumentId(mode: string, p1: Properties, p2: Properties,
                                     join: int -> Option<JoinRow>, svc: Services)
    requires Lookup(p1, "content_id") == Lookup(p2, "content_id")
    ensures GetElementHTML(mode, p1, join, svc) == GetElementHTML(mode, p2, join, svc)
  {
    assert ("content_id" in p1) == ("content_id" in p2);
    if "content_id" in p1 {
      assert p1["content_id"] == Lookup(p1, "content_id").value == p2["content_id"];
    }
  }

  // ---------------------------------------------------------------------------
  // Saving the form
  // ---------------------------------------------------------------------------

  /** The two posted form inputs. */
  datatype FormInput = FormInput(documentId: string, contentId: string)

  /** The host call `saveForm` makes: create a new element or update the current one. */
  datatype Persist = CreateElement(props: Properties) | UpdateElement(props: Properties)

  /** `saveForm`: the property record holds exactly the two posted values. */
  function SaveForm(input: FormInput, create: bool): (p: Persist)
    ensures p.props.Keys == {"document_id", "content_id"}
    ensures p.props["document_id"] == input.documentId && p.props["content_id"] == input.contentId
    ensures p.CreateElement? <==> create
  {
    var props := map["document_id" := input.documentId, "content_id" := input.contentId];
    if create then CreateElement(props) else UpdateElement(props)
  }

  /**
   * Saving the decimal id of an activity and rendering the element outside the editor
   * hands that same id, and nothing else, to the H5P renderer; in the editor it looks
   * that id up in the join.
   */
  lemma SavedActivityRenders(doc: string, id: nat, create: bool, mode: string,
                             join: int -> Option<JoinRow>, svc: Services)
    ensures var props := SaveForm(FormInput(doc, PhpText.NatToString(id)), create).props;
      && (mode != "edit" ==> GetElementHTML(mode, props, join, svc) == svc.h5pHtml(id))
      && (mode == "edit" ==>
            GetElementHTML(mode, props, join, svc) ==
              (match join(id) case Some(row) => Summary(row, svc) case None => DoesNotExist))
  {
    PhpText.IntCastOfNatToString(id);
  }

  /** What the browser is shown after a create or update. */
  datatype Screen = ReturnToParent(messageKey: string) | RedisplayFromPost

  /** The persistence call made (if any) and the resulting screen. */
  datatype Submission = Submission(request: Option<Persist>, screen: Screen)

  /**
   * `create`/`update`: the form is saved only when its input checks out, and the editor
   * returns to the page with the success message only when the save also succeeds;
   * otherwise the form is shown again with the posted values.
   */
  function Submit(create: bool, inputValid: bool, input: FormInput, persist: Persist -> bool): (s: Submission)
    ensures s.request.Some? <==> inputValid
    ensures s.request.Some? ==> s.request.value == SaveForm(input, create)
    ensures s.screen.ReturnToParent? <==> inputValid && persist(SaveForm(input, create))
    ensures s.screen.ReturnToParent? ==>
      s.screen.messageKey == (if create then "msg_obj_created" else "msg_obj_modified")
  {
    if !inputValid then Submission(None, RedisplayFromPost)
    else
      var request := SaveForm(input, create);
      if persist(request) then
        Submission(Some(request), ReturnToParent(if create then "msg_obj_created" else "msg_obj_modified"))
      else Submission(Some(request), RedisplayFromPost)
  }

  // ---------------------------------------------------------------------------
  // The selection form
  // ---------------------------------------------------------------------------

  /** A completed document: `document_id`, `title`. */
  datatype DocRow = DocRow(documentId: string, title: string)

  /** One of a document's activities: `content_id`, `type`, `generated`. */
  datatype ActRow = ActRow(contentId: string, kind: string, generated: int)

  /** A radio option for one activity, with the generation date as its info text. */
  datatype ActivityOption = ActivityOption(caption: string, contentId: string, info: string)

  /** The `content_id` radio group nested under one document, and its preselected value. */
  datatype ActivityChoice = ActivityChoice(options: seq<ActivityOption>, value: Option<string>)

  /** A radio option for one document, carrying its nested activity choice. */
  datatype ModuleOption = ModuleOption(title: string, documentId: string, activities: ActivityChoice)

  /** The form: the `document_id` radio group, its preselected value, and the command buttons. */
  datatype SelectionForm = SelectionForm(modules: seq<ModuleOption>, value: Option<string>, buttons: seq<Command>)

  function ActivityOptionFor(row: ActRow, svc: Services): ActivityOption
  {
    ActivityOption(Txt(svc.lang, "activities_" + row.kind), row.contentId, svc.formatDate(row.generated))
  }

  /** `appendActivitiesListForm`: one option per activity, the stored id preselected only in the selected document. */
  function ActivitiesList(rows: seq<ActRow>, moduleSelected: bool, props: Properties, svc: Services): (c: ActivityChoice)
    ensures |c.options| == |rows|
    ensures forall k :: 0 <= k < |rows| ==> c.options[k].contentId == rows[k].contentId
    ensures !moduleSelected ==> c.value.None?
  {
    ActivityChoice(
      seq(|rows|, k requires 0 <= k < |rows| => ActivityOptionFor(rows[k], svc)),
      if moduleSelected then Lookup(props, "content_id") else None)
  }

  function ModuleFor(doc: DocRow, create: bool, props: Properties,
                     activitiesOf: string -> seq<ActRow>, svc: Services): ModuleOption
  {
    var selected := !create && Lookup(props, "document_id") == Some(doc.documentId);
    ModuleOption(doc.title, doc.documentId, ActivitiesList(activitiesOf(doc.documentId), selected, props, svc))
  }

  /**
   * `initForm`: one option per completed document in query order, the stored document
   * preselected in edit mode only, and a submit button for `create` or `update`
   * followed by `cancel`.
   */
  function InitForm(create: bool, props: Properties, docs: seq<DocRow>,
                    activitiesOf: string -> seq<ActRow>, svc: Services): (f: SelectionForm)
    ensures |f.modules| == |docs|
    ensures forall k :: 0 <= k < |docs| ==>
      f.modules[k].documentId == docs[k].documentId && f.modules[k].title == docs[k].title
    ensures f.buttons == [if create then Create else Update, Cancel]
  {
    SelectionForm(
      seq(|docs|, k requires 0 <= k < |docs| => ModuleFor(docs[k], create, props, activitiesOf, svc)),
      if create then None else Lookup(props, "document_id"),
      [if create then Create else Update, Cancel])
  }

  /** A new element starts with nothing preselected. */
  lemma NothingPreselectedOnCreate(props: Properties, docs: seq<DocRow>,
                                   activitiesOf: string -> seq<ActRow>, svc: Services)
    ensures var f := InitForm(true, props, docs, activitiesOf, svc);
      f.value.None? && forall k :: 0 <= k < |f.modules| ==> f.modules[k].activities.value.None?
  {
  }

  /**
   * When editing, the stored document is preselected, and the stored activity is
   * preselected inside exactly the options whose document is the stored one.
   */
  lemma EditPreselection(props: Properties, docs: seq<DocRow>,
                         activitiesOf: string -> seq<ActRow>, svc: Services)
    ensures var f := InitForm(false, props, docs, activitiesOf, svc);
      && f.value == Lookup(props, "document_id")
      && forall k :: 0 <= k < |f.modules| ==>
           f.modules[k].activities.value ==
             (if "document_id" in props && props["document_id"] == docs[k].documentId
              then Lookup(props, "content_id") else None)
  {
  }

  /**
   * Round trip through the editor: after an element is saved from a form input, editing
   * it preselects the saved document and, under that document only, the saved activity.
   */
  lemma SavedSelectionIsPreselected(input: FormInput, create: bool, docs: seq<DocRow>,
                                    activitiesOf: string -> seq<ActRow>, svc: Services)
    ensures var f := InitForm(false, SaveForm(input, create).props, docs, activitiesOf, svc);
      && f.value == Some(input.documentId)
      && forall k :: 0 <= k < |f.modules| ==>
           (f.modules[k].activities.value.Some? <==> docs[k].documentId == input.documentId)
           && (f.modules[k].activities.value.Some? ==> f.modules[k].activities.value.value == input.contentId)
  {
    EditPreselection(SaveForm(input, create).props, docs, activitiesOf, svc);
  }

  /** The form only offers commands the controller dispatches while the plugin is active. */
  lemma FormButtonsAreDispatched(create: bool, props: Properties, docs: seq<DocRow>,
                                 activitiesOf: string -> seq<ActRow>, svc: Services)
    ensures var f := InitForm(create, props, docs, activitiesOf, svc);
      forall k :: 0 <= k < |f.buttons| ==> ExecuteCommand(true, CommandName(f.buttons[k])) == Success(f.buttons[k])
  {
    var f := InitForm(create, props, docs, activitiesOf, svc);
    forall k | 0 <= k < |f.buttons|
      ensures ExecuteCommand(true, CommandName(f.buttons[k])) == Success(f.buttons[k])
    {
      CommandNameRoundTrip(f.buttons[k], true);
    }
  }

  /**
   * Round trip through a successful submission: when creating or updating with the decimal
   * id of an activity returns to the page, the record handed to the host holds that
   * selection, rendering it outside the editor hands exactly that id to the H5P renderer,
   * and editing it again preselects the saved document and, under it alone, the activity.
   */
  lemma {:induction false} SubmittedSelectionRoundTrip(create: bool, inputValid: bool, doc: string, id: nat,
                                                       persist: Persist -> bool, mode: string,
                                                       join: int -> Option<JoinRow>, svc: Services,
                                                       docs: seq<DocRow>, activitiesOf: string -> seq<ActRow>)
    requires Submit(create, inputValid, FormInput(doc, PhpText.NatToString(id)), persist).screen.ReturnToParent?
    ensures var s := Submit(create, inputValid, FormInput(doc, PhpText.NatToString(id)), persist);
      && s.request.Some? && persist(s.request.value) && (s.request.value.CreateElement? <==> create)
      && (mode != "edit" ==> GetElementHTML(mode, s.request.value.props, join, svc) == svc.h5pHtml(id))
      && (var f := InitForm(false, s.request.value.props, docs, activitiesOf, svc);
          && f.value == Some(doc)
          && forall k :: 0 <= k < |f.modules| ==>
               f.modules[k].activities.value ==
                 (if docs[k].documentId == doc then Some(PhpText.NatToString(id)) else None))
  {
    var input := FormInput(doc, PhpText.NatToString(id));
    SavedActivityRenders(doc, id, create, mode, join, svc);
    SavedSelectionIsPreselected(input, create, docs, activitiesOf, svc);
    EditPreselection(SaveForm(input, create).props, docs, activitiesOf, svc);
  }
}
