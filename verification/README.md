# Nolej page component — a Dafny model

This project models the application logic of the Nolej page-component plugin for
ILIAS. The plugin lets a course editor embed one generated H5P activity into a content
page. The controller's insert, create, edit and update views all show one radio form. It
has one option per completed Nolej document, and each option nests a radio group of that
document's activities. `saveForm` stores the posted `(document_id, content_id)` pair as
the component's properties, and `getElementHTML` renders it later.

The plugin also ships a separate selector widget: a repository explorer whose clickable
nodes open a modal listing an object's activities, grouped by generation batch. The
controller never constructs this selector and passes it no commands. Its tree's leaf links
carry `document_id` and `content_id` as query parameters, which the controller does not
read. The selector and its client script are modelled as they stand, on their own.

The model has five modules:

- `ActivityTree` (`initActivityForm` and its tree-recursion strategy). The activity
  rows arrive newest first and are folded into one group per run of equal `generated`
  timestamps, with one leaf per row. The loop is `InitActivityData`. It is proved equal to
  an independent reference grouping, `Batches`. `Batches` is shown to be the unique
  decomposition of the rows into non-empty, uniform, maximal runs. `Build`, `Render` and
  `ModalTree` model the strategy's `build`/`getChildren` and the widget's recursion over
  them.
- `ActivitySelector` (the explorer overrides `isNodeClickable`, `getNodeHref`,
  `getNodeOnClick` and `executeCommand`). The click handler string is connected to the
  client binder by a parse of its argument.
- `PageComponent` (the controller). It covers the command whitelist behind the
  plugin-active guard, the `txt` helper, `getElementHTML`, `saveForm`, the success gating
  of `create`/`update`, and the selection form with its preselection.
- `ModalBinder` (`js/activity_selector.js`). The page-wide `pcnlj_modal` binding is an
  `Option`. Setup and show calls form an event trace, and the effects are console lines
  and host UI calls.
- `PhpText`. It holds PHP's `(int)` cast of a string and the decimal text of a database
  integer. The round trip between them connects a saved `content_id` to the id handed to
  the H5P renderer.

Host services are function-typed parameters and stay uninterpreted:

- the date formatter and the language lookups;
- the `sprintf` over the localised summary text;
- the H5P renderer;
- the persistence calls (`createElement`/`updateElement`);
- the first row of the join query.

Query results are plain input sequences.

Four behaviours of the code are worth knowing:

- **Failed save.** A failed create/update shows no notice and does not return to the page
  editor. It redisplays the form from the posted values (`Submit`).
- **Empty activity list.** `$data[0]["label"]` is read without a guard. With no groups it
  yields PHP `null` and the tree is empty. `FirstLabel` models the value as `None`.
- **Stored document id.** Rendering never consults `document_id`, in either mode, so it does
  not check that the stored activity belongs to the stored document
  (`ElementHTMLIgnoresDocumentId`).
- **Expanded group.** The first group is expanded because its *label* matches, not because
  of its position. If two batches format to the same date text, both are expanded
  (`LaterBatchExpandedWhenDatesCollide`). `OnlyNewestBatchExpanded` states the conditions
  under which only the newest batch is expanded.

## Model

| member | source | states |
|---|---|---|
| ActivityTree.InitActivityData | classes/class.ilNolejActivitySelectorGUI.php:194-215 | The grouping loop builds exactly the group records of the reference runs `Batches(rows)`. Read in order, the groups' children are one leaf per row, in row order. Every group has a null `content_id` and at least one child. There are groups iff there are rows. |
| ActivityTree.BatchesDecompose | classes/class.ilNolejActivitySelectorGUI.php:197-214 | The runs are non-empty. Every row in a run has the run's timestamp. Neighbouring runs differ. The runs concatenate back to the input rows. The first run opens with the first row's timestamp. |
| ActivityTree.BatchesUnique | classes/class.ilNolejActivitySelectorGUI.php:197-214 | Any decomposition of the rows into non-empty, uniform runs whose neighbours differ is exactly `Batches`. The grouping is therefore determined by the rows alone. |
| ActivityTree.BatchCountIsRunCount | classes/class.ilNolejActivitySelectorGUI.php:199-201 | The number of groups equals one plus the number of adjacent row pairs whose timestamps differ (zero for no rows). |
| ActivityTree.SortedBatchesAreDistinct | classes/class.ilNolejActivitySelectorGUI.php:186-208 | When the rows are ordered by `generated` descending, the groups appear in strictly decreasing timestamp order. There is exactly one group per distinct timestamp. |
| ActivityTree.SortedBatchIsComplete | classes/class.ilNolejActivitySelectorGUI.php:186-215 | When the rows are ordered by `generated` descending, every row whose timestamp equals a group's timestamp is a leaf of that group. Each group therefore holds all activities of one generation. |
| ActivityTree.SortedBatchIsItsGeneration | classes/class.ilNolejActivitySelectorGUI.php:186-215 | When the rows are ordered by `generated` descending, each group's rows are exactly the rows generated at its timestamp, in query order. Each group therefore has as many children as that generation has activities. |
| ActivityTree.FlattenGroupRecords | classes/class.ilNolejActivitySelectorGUI.php:210-214 | The children of the group records, concatenated, are the leaves of the concatenated rows: type label, `content_id`, no children. |
| ActivityTree.TreeEnvironment | classes/class.ilNolejActivitySelectorGUI.php:243-247 | The environment's `first` is defined iff there is a group, and is then the first group's label. Its `url` is `<http path>/<target>&document_id=<doc>`. |
| ActivityTree.FirstLabelIsFirstRowDate | classes/class.ilNolejActivitySelectorGUI.php:194-215 | For the grouped rows of a document, `first` is the formatted date of the first row, and `null` when the document has no activities. |
| ActivityTree.FirstLabel | classes/class.ilNolejActivitySelectorGUI.php:245 | `$data[0]["label"]` is defined iff there is a group. It is then the first group's label, and PHP `null` otherwise. |
| ActivityTree.Build | classes/class.ilNolejActivitySelectorGUI.php:223-240 | A node gets a link iff its record has no children. The link is the base URL plus `&content_id=` and the record's id. The node is expanded iff its label equals the environment's first label. |
| ActivityTree.ModalTreeShape | classes/class.ilNolejActivitySelectorGUI.php:217-249 | The rendered tree has one unlinked, non-empty group per run. Across groups there is exactly one leaf per row, in order. Each leaf has the row's type label and a link `<http path>/<target>&document_id=<doc>&content_id=<id>`. |
| ActivityTree.OnlyNewestBatchExpanded | classes/class.ilNolejActivitySelectorGUI.php:235-245 | Suppose the rows are sorted newest first. Suppose also that no row with an older timestamp formats to the newest row's date text, and that no type label of the document equals that text. Then the first group is the only expanded node. |
| ActivityTree.LaterBatchExpandedWhenDatesCollide | classes/class.ilNolejActivitySelectorGUI.php:235-237 | With a formatter that maps two batches to the same text, the second group is expanded as well. |
| ActivitySelector.IsNodeClickable | classes/class.ilNolejActivitySelectorGUI.php:90-111 | A node the parent explorer rejects is never clickable. Otherwise it is clickable iff the object has at least one distinct generation timestamp. |
| ActivitySelector.ClickableIffModalHasGroups | classes/class.ilNolejActivitySelectorGUI.php:102-110 | A node is clickable iff the parent allows it and the modal tree for its rows has a group. Every clickable object's modal therefore has a defined first label. |
| ActivitySelector.NodeHref | classes/class.ilNolejActivitySelectorGUI.php:118-121 | Every node's href is `#`, whatever the node. |
| ActivitySelector.NodeOnClick | classes/class.ilNolejActivitySelectorGUI.php:128-132 | The handler is the fixed stop-event-and-call prefix, then only decimal digits, then the fixed suffix. The interpolated reference id can therefore neither close the quoted literal nor start an escape. |
| ActivitySelector.OnClickPassesRefId | classes/class.ilNolejActivitySelectorGUI.php:128-132 | For every node, the click handler passes the decimal text of the node's integer reference id as the single-quoted argument of `pcnlj_show_modal`. |
| ActivitySelector.ClickOpensModalForNode | classes/class.ilNolejActivitySelectorGUI.php:128-132 | After setup, the handler's call replaces the modal content from the bound URL plus `&sel_ref_id=<node's ref id>` and then shows the bound modal. |
| ActivitySelector.ExecuteCommand | classes/class.ilNolejActivitySelectorGUI.php:139-151 | Only `activityModal` is dispatched, to the command of that name. Any other command raises `Unknown command: '<cmd>'`. |
| ActivitySelector.SelectorCommandRoundTrip | classes/class.ilNolejActivitySelectorGUI.php:139-151 | The selector's command name is dispatched back to that command. |
| PageComponent.ExecuteCommand | classes/class.ilNolejPageComponentPluginGUI.php:64-89 | An inactive plugin raises `Plugin not active.` whatever the command. An active one dispatches exactly create, save, edit, update and cancel, each to its own handler, and raises `Unknown command: '<cmd>'` otherwise. |
| PageComponent.Txt | classes/class.ilNolejPageComponentPluginGUI.php:97-106 | With the Nolej plugin loaded, the text is the language entry of the prefixed key. Otherwise it is the key between two dashes. |
| PageComponent.TxtFallbackShowsKey | classes/class.ilNolejPageComponentPluginGUI.php:101-103 | Without the Nolej plugin, two keys give the same text iff they are the same key. |
| PageComponent.GetElementHTML | classes/class.ilNolejPageComponentPluginGUI.php:300-333 | A missing `content_id` gives `Activity not found!` in every mode. Outside edit mode the H5P renderer gets `(int) content_id`. In edit mode the result is the summary of the joined row, or `Activity does not exist!` when the join finds none. |
| PageComponent.ElementHTMLIgnoresDocumentId | classes/class.ilNolejPageComponentPluginGUI.php:302-322 | Two property records with the same `content_id` entry render identically in every mode, so `document_id` never influences the output. |
| PageComponent.SaveForm | classes/class.ilNolejPageComponentPluginGUI.php:266-281 | The stored record has exactly the keys `document_id` and `content_id`, holding the two posted inputs. It goes to `createElement` iff the form is a creation. |
| PageComponent.SavedActivityRenders | classes/class.ilNolejPageComponentPluginGUI.php:302-307 | After saving the decimal id `n`, rendering outside the editor hands exactly `n` to the H5P renderer. In the editor the join is queried for `n`. |
| PageComponent.Submit | classes/class.ilNolejPageComponentPluginGUI.php:122-172 | The form is saved iff its input checks out. The editor returns to the page, with `msg_obj_created` or `msg_obj_modified`, iff the input checks out and the save succeeds. Otherwise the form is redisplayed from the posted values. |
| PageComponent.SubmittedSelectionRoundTrip | classes/class.ilNolejPageComponentPluginGUI.php:122-172 | Suppose a create or update with the decimal id of an activity returns to the page. Then the save reached the host with the create/update kind requested. Rendering outside the editor hands exactly that id to the H5P renderer. Editing again preselects the saved document and, under it alone, the saved activity. |
| PageComponent.ActivitiesList | classes/class.ilNolejPageComponentPluginGUI.php:223-258 | There is one activity option per row, carrying the row's `content_id`. The stored activity is never preselected under a document that is not selected. |
| PageComponent.InitForm | classes/class.ilNolejPageComponentPluginGUI.php:179-215 | There is one option per completed document, in query order, with its id and title. The buttons are `create` (or `update` when editing) followed by `cancel`. |
| PageComponent.NothingPreselectedOnCreate | classes/class.ilNolejPageComponentPluginGUI.php:200-207 | A creation form preselects neither a document nor an activity. |
| PageComponent.EditPreselection | classes/class.ilNolejPageComponentPluginGUI.php:198-207 | An edit form preselects the stored `document_id`. The stored `content_id` is preselected exactly under the options whose document id equals the stored one. |
| PageComponent.SavedSelectionIsPreselected | classes/class.ilNolejPageComponentPluginGUI.php:254-256 | Editing a saved element preselects the saved document. Under exactly the options of that document, it preselects the saved activity. |
| PageComponent.FormButtonsAreDispatched | classes/class.ilNolejPageComponentPluginGUI.php:212-213 | Every button of the form names a command that the active controller dispatches back to that command. |
| ModalBinder.Setup | js/activity_selector.js:9-17 | An empty binding becomes `{id, signal, url}`. An existing binding is kept unchanged. |
| ModalBinder.Show | js/activity_selector.js:23-37 | No binding logs `Modal not found.`. A binding without a signal logs `Signal missing.`. Otherwise there are exactly two calls: replace from the URL plus `&sel_ref_id=<ref_id>`, then show the modal. |
| ModalBinder.RunBindsFirstSetup | js/activity_selector.js:1-17 | After any sequence of setup and show calls, the binding is the one made by the first setup call, or null if there was none. |
| ModalBinder.SetupIdempotent | js/activity_selector.js:9-17 | A second setup call leaves the binding of the first unchanged. |
| ModalBinder.ReachableEffects | js/activity_selector.js:11-32 | Every reachable binding has a signal, so `Signal missing.` is never logged. Before any setup, every effect is the `Modal not found.` log and no host UI call is made. |
| ModalBinder.ShowAfterSetup | js/activity_selector.js:34-36 | Once bound, a show call leaves the binding as it is and appends exactly the replace call and the show call, in that order. |
| PhpText.IntCastOfNatToString | classes/class.ilNolejPageComponentPluginGUI.php:307 | `(int)` applied to the decimal text of a database id gives that id back. |
| PhpText.IntCastOfNonNumeric | classes/class.ilNolejPageComponentPluginGUI.php:307 | A `content_id` that does not begin with a digit, a sign, a decimal point or white space casts to 0. |

## Left out

- `classes/class.ilNolejPageComponentPlugin.php`: the plugin descriptor returns constants and has empty clone/delete hooks. There is no logic in it to model.
- SQL: the queries and `ilDBInterface` are not modelled. Their results are input sequences (activity rows, completed documents), and the join is a function from an integer id to its first row. The `ORDER BY generated DESC` is a hypothesis (`SortedDesc`) only where a lemma needs it.
- ilCtrl routing, `$DIC` lookups and `require_once` are not modelled. Neither is the `getHTML` wiring, which adds scripts, builds the async URL and calls `pcnlj_setup_modal` on load. `activityModal` is left out too, because it only reads `sel_ref_id`, resolves the object and echoes the rendered modal before `exit`.
- `insert`, `edit` and `cancel` are not modelled as operations. They only hand the form of `InitForm` to the template or return to the page editor.
- The `save` command is whitelisted, but no `save` handler is defined in this class. The host base class `ilPageComponentPluginGUI` is not part of this model, so only the dispatch is modelled.
- The UI factory and renderer (modal, tree, form and radio widgets) are not modelled. Only the data handed to them is. `ActivityTree.Render` assumes the tree widget builds every record and recurses into `getChildren`.
- `ilDatePresentation::formatDate`, the language lookups, `sprintf` over the localised summary text, `ilObjNolejGUI::getH5PHtml`, and `createElement`/`updateElement` are function parameters. They are external host services.
- The resolution of `documentId` from a reference id is not modelled, because `ilNolejManagerGUI` belongs to the sibling Nolej plugin.
- Browser events and the DOM are not modelled. The click handler is modelled only as the string it builds. Explorer nodes carry the integer `child` key of the repository tree.
- ActivityTree.InitActivityData: `generated` is an integer timestamp, and the empty starting value of `$lastTimestamp` is `None`. `NULL` timestamps are not modelled, because the column holds Unix timestamps. In PHP they would behave in two ways. A `NULL` read as the first row compares loosely equal to `""`, so no group is opened and its leaf goes into a `$data[-1]` record without a label. Under `ORDER BY generated DESC`, MySQL and MariaDB sort `NULL` last, so this happens only when every row of the document is `NULL`. A `NULL` read after a non-`NULL` row compares unequal to it and opens a new group, labelled with the formatted date of `new ilDateTime(null, IL_CAL_UNIX)`.
- ActivityTree.FirstLabel: the notice (PHP 7.4) or warnings (PHP 8) raised by the unguarded read of `$data[0]["label"]` on an empty `$data` are not modelled. These are "Undefined array key 0" and "Trying to access array offset on value of type null". Only the resulting `null` is modelled. A host error handler that turns them into exceptions would fail the request.
- ActivityTree.Build: the link is modelled as the string handed to the `ILIAS\Data\URI` constructor. That constructor's validation is not modelled, nor is the `InvalidArgumentException` it throws when the string does not parse. This matters because `document_id` is put into the query string unencoded.
- ActivityTree.OnlyNewestBatchExpanded: this holds only when no older batch and no type label of the document shares the newest batch's date text, because the code compares labels rather than positions.
- PageComponent.Txt: the `-key-` fallback is modelled, but it cannot be reached in the plugin as shipped. The constructor loads the Nolej plugin's class file with an unconditional `require_once`, and a missing file is fatal before `txt` can run. `TxtFallbackShowsKey` therefore describes a branch that `txt` defines but the shipped constructor never lets run.
- PageComponent.InitForm: document ids are compared with string equality. PHP's `==` also equates numeric strings such as `"01"` and `"1"`, and equates `null` with `""`. That loose comparison is not modelled.
- PageComponent.GetElementHTML: properties are strings, as the host stores them. A property present with a `null` value, which `isset` treats as absent, is not represented.
- PhpText.IntCastOfNatToString: the `(int)` cast reads leading white space, an optional sign and the leading decimal digits. 64-bit saturation of longer digit strings is not modelled, because content ids are plain decimal integers.
- PhpText.IntCastOfNonNumeric: exponent forms are not modelled. PHP casts `"1e3"` to 1000, `"4.2e1"` to 42 and `".5e1"` to 5, while `IntCast` stops at the first non-digit. The lemma therefore excludes a leading decimal point, and says nothing about exponents after leading digits.
- Concurrent edits of one component are not modelled: the last write wins and there is no conflict detection.
