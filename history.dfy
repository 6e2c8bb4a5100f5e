/** The history panel (src/app/components/HistorySection.jsx): the set of
    expanded items, the look of each route's entries, the decoding of a
    stored result and the ids of its copy buttons. */
module HistorySection {
  import opened Wrappers
  import opened JsString
  import opened Json
  import Rewrite
  import FixGrammar
  import ReplyGenerate

  /** `newSet` after `toggleExpanded(id)`: the id's membership flipped. */
  function Toggled<T(!new)>(items: set<T>, id: T): (r: set<T>)
    ensures id in r <==> id !in items
    ensures forall x :: x != id ==> (x in r <==> x in items)
  {
    if id in items then items - {id} else items + {id}
  }

  /** Toggling the same id twice gives the set back. */
  lemma ToggledTwice<T(!new)>(items: set<T>, id: T)
    ensures Toggled(Toggled(items, id), id) == items
  {
    var once := Toggled(items, id);
    var twice := Toggled(once, id);
    assert forall x :: x in twice <==> x in items;
  }

  /** The panel's `expandedItems` state. */
  class Panel {
    var expandedItems: set<Json>

    constructor()
      ensures expandedItems == {}
    {
      expandedItems := {};
    }

    /** `toggleExpanded(id)`: copies the set, then adds or deletes the id. */
    method ToggleExpanded(id: Json)
      modifies this
      ensures expandedItems == Toggled(old(expandedItems), id)
    {
      var newSet := expandedItems;
      if id in newSet {
        newSet := newSet - {id};
      } else {
        newSet := newSet + {id};
      }
      expandedItems := newSet;
    }
  }

  datatype Icon = CheckCircle | Lightbulb | Heart | MessageCircle | History

  /** A config; `caption` is the source's `label` (a reserved word here). */
  datatype ActionConfig = ActionConfig(caption: string, icon: Icon, color: string)

  /** The `configs` table of `getActionConfig`. */
  const Configs: map<string, ActionConfig> := map[
    "fix-grammar" := ActionConfig("Fix Grammar", CheckCircle, "green"),
    "simplify" := ActionConfig("Simplify", Lightbulb, "blue"),
    "make-polite" := ActionConfig("Make Polite", Heart, "purple"),
    "reply-suggestion" := ActionConfig("Reply Ideas", MessageCircle, "yellow")]

  /** `getActionConfig(action)`: the configured look, or the action's own
      name with the history icon in blue. */
  function GetActionConfig(action: string): (c: ActionConfig)
    ensures c.icon == History <==> action !in Configs
    ensures action !in Configs ==> c == ActionConfig(action, History, "blue")
    ensures action in Configs ==> c == Configs[action]
  {
    if action in Configs then Configs[action] else ActionConfig(action, History, "blue")
  }

  /** The keys the routes wrap their replies in are exactly the configured
      ones. */
  lemma RouteKeysConfigured()
    ensures Configs.Keys == {FixGrammar.RouteKey, Rewrite.RouteKey(Rewrite.Simplify),
                             Rewrite.RouteKey(Rewrite.Polite), ReplyGenerate.RouteKey}
    ensures GetActionConfig(FixGrammar.RouteKey).caption == "Fix Grammar"
    ensures GetActionConfig(ReplyGenerate.RouteKey).caption == "Reply Ideas"
  {
  }

  /** `formatResult(result)`: a string is decoded when it parses and kept
      otherwise; any other value is kept.  `parse` stands for `JSON.parse`. */
  function FormatResult(result: Json, parse: string -> Option<Json>): (r: Json)
    ensures !result.JStr? ==> r == result
    ensures result.JStr? && parse(result.s).Some? ==> r == parse(result.s).value
    ensures result.JStr? && parse(result.s).None? ==> r == result
  {
    if result.JStr? && parse(result.s).Some? then parse(result.s).value else result
  }

  /** Formatting twice changes nothing more once the first pass has produced
      something other than a string. */
  lemma FormatResultSettles(result: Json, parse: string -> Option<Json>)
    requires !FormatResult(result, parse).JStr?
    ensures FormatResult(FormatResult(result, parse), parse) == FormatResult(result, parse)
  {
  }

  /** `getCopyId(type, index, itemId)` */
  function GetCopyId(kind: string, index: nat, itemId: string): string {
    DashNumber(kind, index) + "-" + itemId
  }

  /** Copy ids are distinct for distinct buttons as long as item ids carry no
      dash (a `Date.now()` id, say): the dashes inside a kind such as
      'fix-grammar' do not cause clashes. */
  lemma CopyIdsDistinct(k1: string, i1: nat, id1: string, k2: string, i2: nat, id2: string)
    requires '-' !in id1 && '-' !in id2
    requires GetCopyId(k1, i1, id1) == GetCopyId(k2, i2, id2)
    ensures k1 == k2 && i1 == i2 && id1 == id2
  {
    DashSplit(DashNumber(k1, i1), id1, DashNumber(k2, i2), id2);
    DashNumberInjective(k1, i1, k2, i2);
  }
}
