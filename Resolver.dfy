/**
 * The language-model client (src/llm_client.py): how a free-text reply
 * becomes an in-bounds action index, how engine actions are converted to
 * and displayed as dictionaries, and how `LLMPlayer.decide_async` turns
 * the index back into an engine action.
 *
 * `json.loads` is an oracle `parse`: `Some(v)` when the text is valid JSON
 * with value `v`, `None` when it raises `JSONDecodeError`.  The two
 * regular-expression searches are written out as scanners and proved to
 * find the leftmost match.
 */
module Resolver {
  import opened Wrappers
  import opened Text
  import opened Json

  const ActionIndexKey: string := "action_index"
  const ReasoningKey: string := "reasoning"
  /** The literal the fragment pattern looks for, quotes included. */
  const QuotedActionIndex: string := "\"action_index\""

  const NoReasoning: string := "No reasoning provided"
  const FragmentFailed: string := "JSON parsing failed"
  const ExtractedNumber: string := "Extracted number from response"
  const Unparsable: string := "Could not parse response"
  const ErrorPrefix: string := "Error occurred, defaulting to first legal action: "
  /** Message of the `IndexError` raised by indexing an empty list. */
  const IndexErrorMessage: string := "list index out of range"

  // ---------------------------------------------------------------------
  // Tier 2: re.search(r'\{[^{}]*"action_index"[^{}]*\}', content)
  // ---------------------------------------------------------------------

  predicate IsBrace(c: char) {
    c == '{' || c == '}'
  }

  /**
   * `s[p..e]` is a match of the fragment pattern: it opens with `{`, closes
   * with `}`, has no brace in between, and contains `"action_index"`.
   */
  predicate FragmentMatch(s: string, p: int, e: int) {
    && 0 <= p && p + 2 <= e <= |s|
    && s[p] == '{' && s[e - 1] == '}'
    && (forall k :: p < k < e - 1 ==> !IsBrace(s[k]))
    && Contains(s[p + 1..e - 1], QuotedActionIndex)
  }

  /** The first index at or after `q` that holds a brace, or `|s|`. */
  function NextBrace(s: string, q: nat): (k: nat)
    requires q <= |s|
    ensures q <= k <= |s|
    ensures forall i :: q <= i < k ==> !IsBrace(s[i])
    ensures k < |s| ==> IsBrace(s[k])
    decreases |s| - q
  {
    if q == |s| || IsBrace(s[q]) then q else NextBrace(s, q + 1)
  }

  /** The search started at `p`: the leftmost match starting at or after `p`. */
  function FragmentFrom(s: string, p: nat): (r: Option<(nat, nat)>)
    requires p <= |s|
    ensures r.Some? ==> p <= r.value.0 && FragmentMatch(s, r.value.0, r.value.1)
    ensures r.Some? ==> forall q, e :: p <= q < r.value.0 ==> !FragmentMatch(s, q, e)
    ensures r.None? ==> forall q, e :: p <= q ==> !FragmentMatch(s, q, e)
    decreases |s| - p
  {
    if p == |s| then None
    else
      var close := NextBrace(s, p + 1);
      if s[p] == '{' && close < |s| && s[close] == '}' && Contains(s[p + 1..close], QuotedActionIndex) then
        Some((p, close + 1))
      else
        assert forall e :: !FragmentMatch(s, p, e) by {
          forall e ensures !FragmentMatch(s, p, e) {
            FragmentEndsAtNextBrace(s, p, e);
          }
        }
        FragmentFrom(s, p + 1)
  }

  /** A fragment starting at `p` ends just after the first brace that follows `p`. */
  lemma FragmentEndsAtNextBrace(s: string, p: nat, e: int)
    requires p < |s|
    ensures FragmentMatch(s, p, e) ==> e == NextBrace(s, p + 1) + 1
  {
  }

  /** `re.search` for the fragment pattern: the span of the leftmost match. */
  function FindFragment(s: string): (r: Option<(nat, nat)>)
    ensures r.Some? ==> FragmentMatch(s, r.value.0, r.value.1)
    ensures r.Some? ==> forall q, e :: 0 <= q < r.value.0 ==> !FragmentMatch(s, q, e)
    ensures r.None? ==> forall q, e :: !FragmentMatch(s, q, e)
  {
    FragmentFrom(s, 0)
  }

  /** A fragment match is determined by where it starts. */
  lemma FragmentEndUnique(s: string, p: int, e: int, e': int)
    requires FragmentMatch(s, p, e) && FragmentMatch(s, p, e')
    ensures e == e'
  {
    FragmentEndsAtNextBrace(s, p, e);
    FragmentEndsAtNextBrace(s, p, e');
  }

  // ---------------------------------------------------------------------
  // Tier 3: re.search(r'\b(\d+)\b', content)
  // ---------------------------------------------------------------------

  /** A regular-expression word character (ASCII letters, digits, `_`). */
  predicate IsWordChar(c: char) {
    IsDigit(c) || ('a' <= c <= 'z') || ('A' <= c <= 'Z') || c == '_'
  }

  /** `s[i..k]` is a match of `\b(\d+)\b`: digits with a word boundary on each side. */
  predicate NumberMatch(s: string, i: int, k: int) {
    && 0 <= i < k <= |s|
    && (forall j :: i <= j < k ==> IsDigit(s[j]))
    && (i == 0 || !IsWordChar(s[i - 1]))
    && (k == |s| || !IsWordChar(s[k]))
  }

  /** The end of the run of digits that starts at `q`. */
  function DigitRunEnd(s: string, q: nat): (k: nat)
    requires q <= |s|
    ensures q <= k <= |s|
    ensures forall j :: q <= j < k ==> IsDigit(s[j])
    ensures k < |s| ==> !IsDigit(s[k])
    decreases |s| - q
  {
    if q == |s| || !IsDigit(s[q]) then q else DigitRunEnd(s, q + 1)
  }

  /** The search started at `p`: the leftmost number match starting at or after `p`. */
  function NumberFrom(s: string, p: nat): (r: Option<(nat, nat)>)
    requires p <= |s|
    ensures r.Some? ==> p <= r.value.0 && NumberMatch(s, r.value.0, r.value.1)
    ensures r.Some? ==> forall q, k :: p <= q < r.value.0 ==> !NumberMatch(s, q, k)
    ensures r.None? ==> forall q, k :: p <= q ==> !NumberMatch(s, q, k)
    decreases |s| - p
  {
    if p == |s| then None
    else
      var k := DigitRunEnd(s, p);
      if p < k && (p == 0 || !IsWordChar(s[p - 1])) && (k == |s| || !IsWordChar(s[k])) then
        Some((p, k))
      else
        assert forall k' :: !NumberMatch(s, p, k') by {
          forall k' ensures !NumberMatch(s, p, k') {
            NumberEndsAtRunEnd(s, p, k');
          }
        }
        NumberFrom(s, p + 1)
  }

  /** A number match starting at `i` ends where the run of digits ends. */
  lemma NumberEndsAtRunEnd(s: string, i: nat, k: int)
    requires i <= |s|
    ensures NumberMatch(s, i, k) ==> k == DigitRunEnd(s, i)
  {
  }

  /** `re.search` for `\b(\d+)\b`: the span of the leftmost match. */
  function FindNumber(s: string): (r: Option<(nat, nat)>)
    ensures r.Some? ==> NumberMatch(s, r.value.0, r.value.1)
    ensures r.Some? ==> forall q, k :: 0 <= q < r.value.0 ==> !NumberMatch(s, q, k)
    ensures r.None? ==> forall q, k :: !NumberMatch(s, q, k)
  {
    NumberFrom(s, 0)
  }

  /** A number match is determined by where it starts (the run is maximal). */
  lemma NumberEndUnique(s: string, i: int, k: int, k': int)
    requires NumberMatch(s, i, k) && NumberMatch(s, i, k')
    ensures k == k'
  {
    NumberEndsAtRunEnd(s, i, k);
    NumberEndsAtRunEnd(s, i, k');
  }

  // ---------------------------------------------------------------------
  // The tiers and the bounds check of LLMClient.get_move
  // ---------------------------------------------------------------------

  /** The dictionary the fallback tiers build: `{"action_index": i, "reasoning": why}`. */
  function FallbackDecision(index: int, why: string): Json {
    JObj(map[ActionIndexKey := JInt(index), ReasoningKey := JStr(why)])
  }

  /**
   * The value bound to `decision` once the tiers have run: the whole reply
   * as JSON; else the first brace fragment naming "action_index" (and the
   * fixed fallback when that fragment is not JSON, with no further tier);
   * else the first word-bounded run of digits; else index 0.
   */
  function Decision(content: string, parse: string -> Option<Json>): (d: Json)
    ensures parse(content).Some? ==> d == parse(content).value
    ensures parse(content).None? && FindFragment(content).Some? ==>
              var f := FindFragment(content).value;
              parse(content[f.0..f.1]).Some? ==> d == parse(content[f.0..f.1]).value
    ensures parse(content).None? && FindFragment(content).None? ==>
              d.JObj? && d.fields.Keys == {ActionIndexKey, ReasoningKey} &&
              d.fields[ActionIndexKey].JInt? && d.fields[ActionIndexKey].i >= 0 &&
              (d.fields[ReasoningKey] == JStr(Unparsable) <==> FindNumber(content).None?)
  {
    match parse(content)
    case Some(v) => v
    case None =>
      match FindFragment(content)
      case Some(span) =>
        (match parse(content[span.0..span.1])
         case Some(v) => v
         case None => FallbackDecision(0, FragmentFailed))
      case None =>
        match FindNumber(content)
        case Some(span) => FallbackDecision(DigitsValue(content[span.0..span.1]), ExtractedNumber)
        case None => FallbackDecision(0, Unparsable)
  }

  /**
   * The bounds check: the candidate `decision.get("action_index", 0)` is kept
   * when it is a Python `int` in `[0, n)`, and replaced by 0 otherwise.
   */
  function CheckedIndex(fields: map<string, Json>, n: nat): (i: nat)
    ensures i == 0 || i < n
  {
    match AsPyInt(Get(fields, ActionIndexKey, JInt(0)))
    case Some(c) => if 0 <= c < n then c else 0
    case None => 0
  }

  /** The `AttributeError` message for calling `.get` on a value of another type than `dict`. */
  function NoGetMessage(v: Json): string {
    "'" + TypeName(v) + "' object has no attribute 'get'"
  }

  /** What `get_move` returns: the chosen move, or the exception it lets escape. */
  datatype MoveResult<A> =
    | Chosen(action: A, actionIndex: nat, reasoning: Json, model: string, rawResponse: Option<string>)
    | Raised(error: string)

  /**
   * `LLMClient.get_move` from the moment the reply text is in hand: strip
   * it, run the tiers, check the bounds, and index the legal actions.  A
   * decoded value that is not a JSON object fails at `.get` and lands in the
   * catch-all, which answers index 0; with no legal action at all both the
   * normal return and the catch-all index an empty list, and that
   * `IndexError` escapes.
   */
  function GetMove<A>(model: string, reply: string, legal: seq<A>, parse: string -> Option<Json>): (r: MoveResult<A>)
    ensures r.Raised? <==> |legal| == 0
    ensures r.Raised? ==> r.error == IndexErrorMessage
    ensures r.Chosen? ==> r.actionIndex < |legal| && r.action == legal[r.actionIndex]
    ensures r.Chosen? ==> r.model == model
  {
    var content := Strip(reply);
    var decision := Decision(content, parse);
    if |legal| == 0 then Raised(IndexErrorMessage)
    else
      match decision
      case JObj(fields) =>
        var i := CheckedIndex(fields, |legal|);
        Chosen(legal[i], i, Get(fields, ReasoningKey, JStr(NoReasoning)), model, Some(content))
      case _ =>
        Chosen(legal[0], 0, JStr(ErrorPrefix + NoGetMessage(decision)), model, None)
  }

  /** A reply that is a whole JSON object with an in-range integer index is taken at its word. */
  lemma WholeReplyObject<A>(model: string, reply: string, legal: seq<A>, parse: string -> Option<Json>,
                            fields: map<string, Json>, i: int)
    requires parse(Strip(reply)) == Some(JObj(fields))
    requires ActionIndexKey in fields && fields[ActionIndexKey] == JInt(i) && 0 <= i < |legal|
    ensures GetMove(model, reply, legal, parse)
            == Chosen(legal[i], i, Get(fields, ReasoningKey, JStr(NoReasoning)), model, Some(Strip(reply)))
  {
  }

  /** A JSON object without "action_index" gives index 0 and its own reasoning, if any. */
  lemma WholeReplyWithoutIndex<A>(model: string, reply: string, legal: seq<A>, parse: string -> Option<Json>,
                                  fields: map<string, Json>)
    requires parse(Strip(reply)) == Some(JObj(fields))
    requires ActionIndexKey !in fields && |legal| > 0
    ensures GetMove(model, reply, legal, parse).actionIndex == 0
    ensures ReasoningKey !in fields ==> GetMove(model, reply, legal, parse).reasoning == JStr(NoReasoning)
  {
  }

  /**
   * Whatever tier produced the candidate, an index that is not a Python int,
   * or is out of range, becomes 0.
   */
  lemma BadCandidateBecomesZero<A>(model: string, reply: string, legal: seq<A>, parse: string -> Option<Json>)
    requires |legal| > 0
    requires Decision(Strip(reply), parse).JObj?
    requires var c := AsPyInt(Get(Decision(Strip(reply), parse).fields, ActionIndexKey, JInt(0)));
             c.None? || c.value < 0 || c.value >= |legal|
    ensures GetMove(model, reply, legal, parse).actionIndex == 0
    ensures GetMove(model, reply, legal, parse).action == legal[0]
  {
  }

  /**
   * Valid JSON that is not an object (a bare `3`, a list, a string) fails at
   * `.get`; the catch-all answers index 0 and names the type in its reasoning.
   */
  lemma NonObjectReply<A>(model: string, reply: string, legal: seq<A>, parse: string -> Option<Json>, v: Json)
    requires parse(Strip(reply)) == Some(v) && !v.JObj? && |legal| > 0
    ensures GetMove(model, reply, legal, parse)
            == Chosen(legal[0], 0, JStr(ErrorPrefix + NoGetMessage(v)), model, None)
  {
  }

  /**
   * When the whole reply is not JSON and the leftmost fragment is not JSON
   * either, the answer is index 0 with "JSON parsing failed"; the digit tier
   * is not tried, whatever numbers the reply holds.
   */
  lemma FragmentUnparsable<A>(model: string, reply: string, legal: seq<A>, parse: string -> Option<Json>, p: nat, e: nat)
    requires parse(Strip(reply)) == None && |legal| > 0
    requires FragmentMatch(Strip(reply), p, e)
    requires forall q, e' :: 0 <= q < p ==> !FragmentMatch(Strip(reply), q, e')
    requires parse(Strip(reply)[p..e]) == None
    ensures GetMove(model, reply, legal, parse).actionIndex == 0
    ensures GetMove(model, reply, legal, parse).reasoning == JStr(FragmentFailed)
  {
    var content := Strip(reply);
    var found := FindFragment(content);
    assert found.Some?;
    var (q, e') := found.value;
    assert q == p;
    FragmentEndUnique(content, p, e, e');
  }

  /**
   * When the whole reply is not JSON but its leftmost fragment is a JSON
   * object with an in-range integer index, that fragment is taken at its
   * word: the reply's JSON wrapped in prose.
   */
  lemma FragmentObject<A>(model: string, reply: string, legal: seq<A>, parse: string -> Option<Json>,
                          p: nat, e: nat, fields: map<string, Json>, i: int)
    requires parse(Strip(reply)) == None
    requires FragmentMatch(Strip(reply), p, e)
    requires forall q, e' :: 0 <= q < p ==> !FragmentMatch(Strip(reply), q, e')
    requires parse(Strip(reply)[p..e]) == Some(JObj(fields))
    requires ActionIndexKey in fields && fields[ActionIndexKey] == JInt(i) && 0 <= i < |legal|
    ensures GetMove(model, reply, legal, parse)
            == Chosen(legal[i], i, Get(fields, ReasoningKey, JStr(NoReasoning)), model, Some(Strip(reply)))
  {
    var content := Strip(reply);
    var found := FindFragment(content);
    assert found.Some?;
    var (q, e') := found.value;
    assert q == p;
    FragmentEndUnique(content, p, e, e');
  }

  /**
   * With no JSON and no fragment, the leftmost word-bounded number is the
   * candidate: kept when in range, else 0; the reasoning says it was extracted.
   */
  lemma NumberTier<A>(model: string, reply: string, legal: seq<A>, parse: string -> Option<Json>, i: nat, k: nat)
    requires parse(Strip(reply)) == None && |legal| > 0
    requires forall q, e :: !FragmentMatch(Strip(reply), q, e)
    requires NumberMatch(Strip(reply), i, k)
    requires forall q, k' :: 0 <= q < i ==> !NumberMatch(Strip(reply), q, k')
    ensures var v := DigitsValue(Strip(reply)[i..k]);
            GetMove(model, reply, legal, parse).actionIndex == (if v < |legal| then v else 0)
    ensures GetMove(model, reply, legal, parse).reasoning == JStr(ExtractedNumber)
  {
    var content := Strip(reply);
    assert FindFragment(content).None?;
    var found := FindNumber(content);
    assert found.Some?;
    var (q, k') := found.value;
    assert q == i;
    NumberEndUnique(content, i, k, k');
  }

  /** With no JSON, no fragment and no number, the answer is 0 with "Could not parse response". */
  lemma NothingParsed<A>(model: string, reply: string, legal: seq<A>, parse: string -> Option<Json>)
    requires parse(Strip(reply)) == None && |legal| > 0
    requires forall q, e :: !FragmentMatch(Strip(reply), q, e)
    requires forall q, k :: !NumberMatch(Strip(reply), q, k)
    ensures GetMove(model, reply, legal, parse).actionIndex == 0
    ensures GetMove(model, reply, legal, parse).reasoning == JStr(Unparsable)
  {
    var content := Strip(reply);
    assert FindFragment(content).None?;
    assert FindNumber(content).None?;
  }

  /** A JSON `true` passes the `isinstance(…, int)` check as index 1. */
  lemma BooleanIndex<A>(model: string, reply: string, legal: seq<A>, parse: string -> Option<Json>,
                        fields: map<string, Json>)
    requires parse(Strip(reply)) == Some(JObj(fields))
    requires ActionIndexKey in fields && fields[ActionIndexKey] == JBool(true) && |legal| >= 2
    ensures GetMove(model, reply, legal, parse).actionIndex == 1
  {
  }

  // ---------------------------------------------------------------------
  // Engine actions: _convert_actions and _format_action
  // ---------------------------------------------------------------------

  /**
   * An engine object as this code sees it: what `str()` gives and, when it
   * is an enum member, its `.value`.
   */
  datatype PyObj = PyObj(str: string, value: Option<string>)

  /** `x.value if hasattr(x, 'value') else str(x)`. */
  function ValueOrStr(x: PyObj): string {
    x.value.GetOr(x.str)
  }

  /** An engine action: a tuple of objects, or some other object; `repr` is its `str()`. */
  datatype EngineAction = EngineAction(isTuple: bool, parts: seq<PyObj>, repr: string)

  /** The dictionary form of an action; absent keys are `None`. */
  datatype ActionDict = ActionDict(
    kind: string,
    raw: string,
    node: Option<PyObj>,
    edge: Option<string>,
    hexCoordinate: Option<string>,
    stealFrom: Option<string>)

  /** The loop body of `_convert_actions` for one action. */
  function ConvertAction(a: EngineAction): (d: ActionDict)
    ensures d.raw == a.repr
    ensures !(a.isTuple && |a.parts| > 0) ==> d == ActionDict(a.repr, a.repr, None, None, None, None)
    ensures a.isTuple && |a.parts| > 0 ==> d.kind == ValueOrStr(a.parts[0])
    ensures |a.parts| <= 1 ==> d.node.None? && d.edge.None? && d.hexCoordinate.None? && d.stealFrom.None?
  {
    if a.isTuple && |a.parts| > 0 then
      var actionType := a.parts[0];
      var base := ActionDict(ValueOrStr(actionType), a.repr, None, None, None, None);
      if |a.parts| > 1 then
        if Contains(actionType.str, "BUILD_SETTLEMENT") then base.(node := Some(a.parts[1]))
        else if Contains(actionType.str, "BUILD_ROAD") then base.(edge := Some(a.parts[1].str))
        else if Contains(actionType.str, "BUILD_CITY") then base.(node := Some(a.parts[1]))
        else if Contains(actionType.str, "MOVE_ROBBER") then
          base.(hexCoordinate := Some(a.parts[1].str),
                stealFrom := if |a.parts| > 2 then Some(ValueOrStr(a.parts[2])) else None)
        else base
      else base
    else
      ActionDict(a.repr, a.repr, None, None, None, None)
  }

  /** `LLMPlayer._convert_actions`: one dictionary per action, in the same order. */
  method ConvertActions(playable: seq<EngineAction>) returns (converted: seq<ActionDict>)
    ensures |converted| == |playable|
    ensures forall i :: 0 <= i < |playable| ==> converted[i] == ConvertAction(playable[i])
  {
    converted := [];
    for n := 0 to |playable|
      invariant |converted| == n
      invariant forall i :: 0 <= i < n ==> converted[i] == ConvertAction(playable[i])
    {
      converted := converted + [ConvertAction(playable[n])];
    }
  }

  /** How `f"{x}"` shows an optional dictionary entry, with its default. */
  function ShowOr(x: Option<string>, default: string): string {
    x.GetOr(default)
  }

  /**
   * `LLMClient._format_action`: the first branch whose marker the type
   * contains wins, and a type with no marker is shown as it is.
   */
  function FormatAction(d: ActionDict): (r: string)
    ensures FirstMarker(d.kind) == |Markers| ==> r == d.kind
    ensures FirstMarker(d.kind) < |Markers| ==> Openings[FirstMarker(d.kind)] <= r
  {
    assert "PLAY_KNIGHT" + "_CARD" == "PLAY_KNIGHT_CARD";
    ContainsExtends(d.kind, "PLAY_KNIGHT", "_CARD");
    assert "MARITIME_" + "TRADE" == "MARITIME_TRADE";
    ContainsInside(d.kind, "MARITIME_", "TRADE");
    var t := d.kind;
    if Contains(t, "BUILD_SETTLEMENT") then
      "Build settlement at node " + (if d.node.Some? then d.node.value.str else "Unknown")
    else if Contains(t, "BUILD_ROAD") then
      "Build road on edge " + ShowOr(d.edge, "Unknown")
    else if Contains(t, "BUILD_CITY") then
      "Upgrade settlement to city at node " + (if d.node.Some? then d.node.value.str else "Unknown")
    else if Contains(t, "BUY_DEVELOPMENT_CARD") then "Buy development card"
    else if Contains(t, "PLAY_KNIGHT") || Contains(t, "PLAY_KNIGHT_CARD") then "Play knight card"
    else if Contains(t, "MOVE_ROBBER") then
      var hex := ShowOr(d.hexCoordinate, "Unknown");
      var steal := ShowOr(d.stealFrom, "");
      if steal != "" then "Move robber to hex " + hex + " and steal from " + steal
      else "Move robber to hex " + hex
    else if Contains(t, "TRADE") || Contains(t, "MARITIME_TRADE") then "Trade resources"
    else if Contains(t, "END_TURN") then "End turn"
    else if Contains(t, "ROLL") then "Roll dice"
    else if Contains(t, "DISCARD") then "Discard cards"
    else t
  }

  /** The markers `_format_action` tests, in its order. */
  const Markers: seq<string> := [
    "BUILD_SETTLEMENT", "BUILD_ROAD", "BUILD_CITY", "BUY_DEVELOPMENT_CARD", "PLAY_KNIGHT",
    "MOVE_ROBBER", "TRADE", "END_TURN", "ROLL", "DISCARD"]

  /** How `_format_action` opens its text for each marker, in the order of `Markers`. */
  const Openings: seq<string> := [
    "Build settlement at node ", "Build road on edge ", "Upgrade settlement to city at node ",
    "Buy development card", "Play knight card", "Move robber to hex ", "Trade resources",
    "End turn", "Roll dice", "Discard cards"]

  /** The position in `Markers` of the first marker `t` contains, or `|Markers|` when it contains none. */
  function FirstMarker(t: string): (k: nat)
    ensures k <= |Markers|
    ensures forall j :: 0 <= j < k ==> !Contains(t, Markers[j])
    ensures k < |Markers| ==> Contains(t, Markers[k])
  {
    FirstMarkerFrom(t, 0)
  }

  function FirstMarkerFrom(t: string, from: nat): (k: nat)
    requires from <= |Markers|
    ensures from <= k <= |Markers|
    ensures forall j :: from <= j < k ==> !Contains(t, Markers[j])
    ensures k < |Markers| ==> Contains(t, Markers[k])
    decreases |Markers| - from
  {
    if from == |Markers| || Contains(t, Markers[from]) then from else FirstMarkerFrom(t, from + 1)
  }

  /** A type that contains no marker is shown verbatim. */
  lemma UnknownTypeVerbatim(d: ActionDict)
    requires forall m :: m in Markers ==> !Contains(d.kind, m)
    ensures FormatAction(d) == d.kind
  {
    assert !Contains(d.kind, Markers[0]) && !Contains(d.kind, Markers[1]) && !Contains(d.kind, Markers[2]);
    assert !Contains(d.kind, Markers[3]) && !Contains(d.kind, Markers[4]) && !Contains(d.kind, Markers[5]);
    assert !Contains(d.kind, Markers[6]) && !Contains(d.kind, Markers[7]) && !Contains(d.kind, Markers[8]);
    assert !Contains(d.kind, Markers[9]);
    assert "PLAY_KNIGHT" + "_CARD" == "PLAY_KNIGHT_CARD";
    ContainsExtends(d.kind, "PLAY_KNIGHT", "_CARD");
    assert "MARITIME_" + "TRADE" == "MARITIME_TRADE";
    ContainsInside(d.kind, "MARITIME_", "TRADE");
  }

  /** A string that contains `p + q` contains `p`. */
  lemma ContainsExtends(s: string, p: string, q: string)
    ensures Contains(s, p + q) ==> Contains(s, p)
  {
    if Contains(s, p + q) {
      var i :| 0 <= i <= |s| - |p + q| && OccursAt(s, p + q, i);
      assert s[i..i + |p|] == (p + q)[..|p|];
      assert OccursAt(s, p, i);
    }
  }

  /** A string that contains `p + q` contains `q`. */
  lemma ContainsInside(s: string, p: string, q: string)
    ensures Contains(s, p + q) ==> Contains(s, q)
  {
    if Contains(s, p + q) {
      var i :| 0 <= i <= |s| - |p + q| && OccursAt(s, p + q, i);
      assert s[i + |p|..i + |p| + |q|] == (p + q)[|p|..];
      assert OccursAt(s, q, i + |p|);
    }
  }

  /**
   * The first matching branch wins: a type containing "BUILD_SETTLEMENT"
   * is shown as a settlement whatever else it contains.
   */
  lemma SettlementBranchFirst(d: ActionDict)
    requires Contains(d.kind, "BUILD_SETTLEMENT")
    ensures FormatAction(d) == "Build settlement at node " + (if d.node.Some? then d.node.value.str else "Unknown")
  {
  }

  /**
   * A settlement action converted by `_convert_actions` shows the node it
   * carried: converting and then formatting agree on the node.
   */
  lemma ConvertedSettlementShowsNode(a: EngineAction, v: string)
    requires a.isTuple && |a.parts| > 1
    requires a.parts[0].value == Some(v) && Contains(v, "BUILD_SETTLEMENT")
    requires Contains(a.parts[0].str, "BUILD_SETTLEMENT")
    ensures FormatAction(ConvertAction(a)) == "Build settlement at node " + a.parts[1].str
  {
  }

  /** An object that is not a non-empty tuple is shown as its own `str()` unless that names a marker. */
  lemma ConvertedOtherShownVerbatim(a: EngineAction)
    requires !(a.isTuple && |a.parts| > 0)
    requires forall m :: m in Markers ==> !Contains(a.repr, m)
    ensures FormatAction(ConvertAction(a)) == a.repr
  {
    UnknownTypeVerbatim(ConvertAction(a));
  }

  // ---------------------------------------------------------------------
  // LLMPlayer.decide_async
  // ---------------------------------------------------------------------

  /**
   * `LLMPlayer.decide_async` with the model's reply in hand: convert the
   * playable actions, resolve the reply against them, and return the
   * original engine action at the resolved index.  The conversion keeps
   * the length, so the index that is in bounds for the dictionaries is in
   * bounds for the engine actions.  `None` is the `IndexError` that escapes
   * when there is no playable action.
   */
  method DecideAsync(model: string, reply: string, playable: seq<EngineAction>, parse: string -> Option<Json>)
    returns (chosen: Option<EngineAction>)
    ensures chosen.Some? <==> |playable| > 0
    ensures chosen.Some? ==>
              var i := GetMove(model, reply, ConvertedAll(playable), parse).actionIndex;
              i < |playable| && chosen.value == playable[i]
  {
    var legal := ConvertActions(playable);
    assert legal == ConvertedAll(playable);
    var decision := GetMove(model, reply, legal, parse);
    if decision.Raised? {
      chosen := None;
    } else {
      chosen := Some(playable[decision.actionIndex]);
    }
  }

  /** The list `_convert_actions` builds, as a value. */
  function ConvertedAll(playable: seq<EngineAction>): (r: seq<ActionDict>)
    ensures |r| == |playable|
  {
    seq(|playable|, i requires 0 <= i < |playable| => ConvertAction(playable[i]))
  }
}

module ResolverExamples {
  import opened Wrappers
  import opened Text
  import opened Json
  import opened Resolver

  const WellFormedReply: string := "{\"action_index\": 2, \"reasoning\": \"x\"}"
  const ProseReply: string := "I think action 7 is best"

  lemma WellFormedReplyStripped()
    ensures Strip(WellFormedReply) == WellFormedReply
  {
    StripUnchanged(WellFormedReply);
  }

  /** A well-formed reply with five legal actions picks index 2 and keeps its reasoning. */
  lemma WellFormedReplyPicksTwo<A>(legal: seq<A>, parse: string -> Option<Json>)
    requires |legal| == 5
    requires parse(WellFormedReply) == Some(JObj(map[ActionIndexKey := JInt(2), ReasoningKey := JStr("x")]))
    ensures GetMove("m", WellFormedReply, legal, parse) == Chosen(legal[2], 2, JStr("x"), "m", Some(WellFormedReply))
  {
    WellFormedReplyStripped();
    var fields := map[ActionIndexKey := JInt(2), ReasoningKey := JStr("x")];
    assert ActionIndexKey != ReasoningKey;
    WholeReplyObject("m", WellFormedReply, legal, parse, fields, 2);
    assert Get(fields, ReasoningKey, JStr(NoReasoning)) == JStr("x");
  }

  /**
   * "I think action 7 is best" with three legal actions: the number 7 is
   * extracted and then defaulted to 0 by the bounds check; the reasoning
   * still says the number was extracted.
   */
  lemma ProsePrefixHasNoDigit(reply: string)
    requires reply == ProseReply
    ensures forall q :: 0 <= q < 15 ==> !IsDigit(reply[q])
  {
    var p := reply[..15];
    assert p == "I think action ";
    assert p[0] == 'I' && p[1] == ' ' && p[2] == 't' && p[3] == 'h' && p[4] == 'i';
    assert p[5] == 'n' && p[6] == 'k' && p[7] == ' ' && p[8] == 'a' && p[9] == 'c';
    assert p[10] == 't' && p[11] == 'i' && p[12] == 'o' && p[13] == 'n' && p[14] == ' ';
  }

  lemma ProseReplyHasNoFragment(reply: string)
    requires reply == ProseReply
    ensures FindFragment(reply).None?
  {
    assert forall q :: 0 <= q < |reply| ==> reply[q] != '{';
  }

  lemma ProseReplyNumber(reply: string)
    requires reply == ProseReply
    ensures FindNumber(reply) == Some((15, 16))
    ensures DigitsValue(reply[15..16]) == 7
  {
    ProsePrefixHasNoDigit(reply);
    assert NumberMatch(reply, 15, 16);
    var found := FindNumber(reply);
    assert found.Some?;
    var i := found.value.0;
    assert IsDigit(reply[i]);
    assert 15 <= i;
    assert i <= 15;
    NumberEndUnique(reply, 15, 16, found.value.1);
    assert reply[15..16] == "7";
  }

  lemma ProseReplyDefaultsToZero<A>(reply: string, legal: seq<A>, parse: string -> Option<Json>)
    requires reply == ProseReply
    requires |legal| == 3
    requires parse(reply) == None
    ensures GetMove("m", reply, legal, parse) == Chosen(legal[0], 0, JStr(ExtractedNumber), "m", Some(reply))
  {
    ProseReplyStripped(reply);
    ProseDecision(reply, parse);
    var fields := map[ActionIndexKey := JInt(7), ReasoningKey := JStr(ExtractedNumber)];
    assert CheckedIndex(fields, 3) == 0;
    assert Get(fields, ReasoningKey, JStr(NoReasoning)) == JStr(ExtractedNumber);
  }

  lemma ProseReplyStripped(reply: string)
    requires reply == ProseReply
    ensures Strip(reply) == reply
  {
    StripUnchanged(reply);
  }

  lemma ProseDecision(reply: string, parse: string -> Option<Json>)
    requires reply == ProseReply
    requires parse(reply) == None
    ensures Decision(reply, parse) == FallbackDecision(7, ExtractedNumber)
  {
    ProseReplyHasNoFragment(reply);
    ProseReplyNumber(reply);
  }


}
