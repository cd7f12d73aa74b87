/** The mapping endpoints (app/backend/api/v1/mappings.py): turning the
    model's suggestions into `Mapping` records with an auto-approval status,
    the confidence summary, the approval echo, and the built-in chart of
    accounts. */
module Mappings {
  import opened Wrappers
  import Gemini

  /** Above this confidence a suggestion is approved without review, and it
      is also the bound of the "high" bucket. */
  const AutoApproveAbove: real := 0.9

  /** The lower bound of the "medium" bucket. */
  const MediumFrom: real := 0.7

  datatype Status = Pending | Approved | Rejected

  /** One entry of the model's JSON array; a key the model left out is `None`. */
  datatype Suggestion = Suggestion(
    sourceId: Option<string>,
    sourceName: Option<string>,
    targetId: Option<string>,
    targetName: Option<string>,
    confidence: Option<real>,
    reasoning: Option<string>)

  /** A suggested mapping from a source line item to a chart-of-accounts entry. */
  datatype Mapping = Mapping(
    sourceId: string,
    sourceName: string,
    targetId: string,
    targetName: string,
    confidence: real,
    reasoning: string,
    status: Status)

  /** The `summary` object of the suggestion response. */
  datatype Summary = Summary(
    totalItems: nat,
    highConfidence: nat,
    mediumConfidence: nat,
    lowConfidence: nat,
    autoApproved: nat)

  datatype MappingResponse = MappingResponse(mappings: seq<Mapping>, summary: Summary)

  /** The status a fresh suggestion receives. */
  function StatusFor(confidence: real): (s: Status)
    ensures s == Approved <==> confidence > AutoApproveAbove
    ensures s == Pending <==> confidence <= AutoApproveAbove
  {
    if confidence > AutoApproveAbove then Approved else Pending
  }

  /** The first key, in the order the `Mapping(...)` arguments read them,
      that the suggestion lacks. */
  function MissingKey(m: Suggestion): Option<string> {
    if m.sourceId.None? then Some("source_id")
    else if m.sourceName.None? then Some("source_name")
    else if m.targetId.None? then Some("target_id")
    else if m.targetName.None? then Some("target_name")
    else if m.confidence.None? then Some("confidence")
    else if m.reasoning.None? then Some("reasoning")
    else None
  }

  /** `x` carries every field of `m` unchanged and the status its confidence earns. */
  predicate CopiedFrom(x: Mapping, m: Suggestion) {
    && m.sourceId == Some(x.sourceId)
    && m.sourceName == Some(x.sourceName)
    && m.targetId == Some(x.targetId)
    && m.targetName == Some(x.targetName)
    && m.confidence == Some(x.confidence)
    && m.reasoning == Some(x.reasoning)
    && x.status == StatusFor(x.confidence)
  }

  /** One `Mapping(...)` construction: a missing key raises `KeyError`. */
  function ToMapping(m: Suggestion): (r: Result<Mapping, string>)
    ensures r.Success? <==> MissingKey(m).None?
    ensures r.Success? ==> CopiedFrom(r.value, m)
    ensures r.Failure? ==> r.error == KeyErrorText(MissingKey(m).value)
  {
    match MissingKey(m)
    case Some(key) => Failure(KeyErrorText(key))
    case None =>
      Success(Mapping(m.sourceId.value, m.sourceName.value, m.targetId.value,
                      m.targetName.value, m.confidence.value, m.reasoning.value,
                      StatusFor(m.confidence.value)))
  }

  /** Suggestion `i` is the first that lacks a key. */
  predicate FirstIncompleteAt(ms: seq<Suggestion>, i: int) {
    && 0 <= i < |ms|
    && MissingKey(ms[i]).Some?
    && forall j :: 0 <= j < i ==> MissingKey(ms[j]).None?
  }

  /** The list comprehension over the model's suggestions: one mapping per
      suggestion, in order, or the error of the first incomplete suggestion
      and no list at all. */
  function ToMappings(ms: seq<Suggestion>): (r: Result<seq<Mapping>, string>)
    ensures r.Success? <==> forall i :: 0 <= i < |ms| ==> MissingKey(ms[i]).None?
    ensures r.Success? ==>
      (|r.value| == |ms| && forall i :: 0 <= i < |ms| ==> CopiedFrom(r.value[i], ms[i]))
    ensures r.Failure? ==>
      exists i :: FirstIncompleteAt(ms, i) && r.error == KeyErrorText(MissingKey(ms[i]).value)
  {
    if |ms| == 0 then Success([])
    else
      match ToMapping(ms[0])
      case Failure(e) =>
        assert FirstIncompleteAt(ms, 0);
        Failure(e)
      case Success(x) =>
        var tail := ms[1..];
        match ToMappings(tail)
        case Failure(e) =>
          ghost var i :| FirstIncompleteAt(tail, i) && e == KeyErrorText(MissingKey(tail[i]).value);
          FirstIncompleteShift(ms, i);
          Failure(e)
        case Success(xs) =>
          assert forall i :: 1 <= i < |ms| ==> ms[i] == tail[i - 1];
          var r := [x] + xs;
          assert forall i :: 1 <= i < |ms| ==> r[i] == xs[i - 1];
          Success(r)
  }

  /** The first incomplete suggestion of the tail is the first of the whole
      list when the head is complete. */
  lemma FirstIncompleteShift(ms: seq<Suggestion>, i: int)
    requires |ms| > 0 && MissingKey(ms[0]).None? && FirstIncompleteAt(ms[1..], i)
    ensures FirstIncompleteAt(ms, i + 1) && ms[i + 1] == ms[1..][i]
  {
    assert forall j :: 1 <= j < |ms| ==> ms[j] == ms[1..][j - 1];
  }

  // ---------------------------------------------------------------------
  // summary

  predicate IsHigh(m: Mapping) { m.confidence > AutoApproveAbove }
  predicate IsMedium(m: Mapping) { MediumFrom <= m.confidence <= AutoApproveAbove }
  predicate IsLow(m: Mapping) { m.confidence < MediumFrom }
  predicate IsAutoApproved(m: Mapping) { m.status == Approved }

  /** `len([m for m in ms if p(m)])` */
  function CountIf(ms: seq<Mapping>, p: Mapping -> bool): (n: nat)
    ensures n <= |ms|
  {
    if |ms| == 0 then 0 else (if p(ms[0]) then 1 else 0) + CountIf(ms[1..], p)
  }

  /** The summary statistics of a list of mappings. */
  function Summarize(ms: seq<Mapping>): Summary {
    Summary(|ms|, CountIf(ms, IsHigh), CountIf(ms, IsMedium), CountIf(ms, IsLow),
            CountIf(ms, IsAutoApproved))
  }

  /** The three buckets are disjoint and cover every confidence, so their
      counts add up to the number of mappings. */
  lemma {:induction false} SummaryPartition(ms: seq<Mapping>)
    ensures var s := Summarize(ms);
            s.highConfidence + s.mediumConfidence + s.lowConfidence == s.totalItems
  {
    if |ms| > 0 {
      SummaryPartition(ms[1..]);
    }
  }

  /** When every status was assigned by the auto-approval rule, the
      auto-approved count is the high-confidence count. */
  lemma {:induction false} AutoApprovedIsHigh(ms: seq<Mapping>)
    requires forall i :: 0 <= i < |ms| ==> ms[i].status == StatusFor(ms[i].confidence)
    ensures Summarize(ms).autoApproved == Summarize(ms).highConfidence
  {
    if |ms| > 0 {
      AutoApprovedIsHigh(ms[1..]);
    }
  }

  /** The thresholds themselves: 0.9 and 0.7 are medium, 0.9 stays pending. */
  lemma Boundaries(m: Mapping)
    requires m.confidence == 0.9 || m.confidence == 0.7
    ensures IsMedium(m) && !IsHigh(m) && !IsLow(m)
    ensures StatusFor(m.confidence) == Pending
  {
  }

  /** A decoded suggestion list is a JSON array. */
  function AsJson(ms: seq<Suggestion>): Gemini.JsonKind {
    Gemini.JsonArray
  }

  /** `suggest_mappings`: the model reply is cleaned and decoded, every
      suggestion becomes a mapping, and the summary is computed. Any failure
      is an HTTP 500 carrying the exception text, with no partial list. */
  function SuggestMappings(reply: Result<string, string>,
                           decode: string -> Result<seq<Suggestion>, string>): (r: Result<MappingResponse, HttpError>)
    ensures r.Failure? ==> r.error.status == 500
    ensures r.Failure? && Gemini.MapToCoa(reply, decode, AsJson).Failure? ==>
      r.error.detail == Gemini.ErrorText(Gemini.MapToCoa(reply, decode, AsJson).error)
    ensures r.Failure? && Gemini.MapToCoa(reply, decode, AsJson).Success? ==>
      var ai := Gemini.MapToCoa(reply, decode, AsJson).value;
      exists i :: FirstIncompleteAt(ai, i) && r.error.detail == KeyErrorText(MissingKey(ai[i]).value)
    ensures r.Success? <==>
      var ai := Gemini.MapToCoa(reply, decode, AsJson);
      ai.Success? && forall i :: 0 <= i < |ai.value| ==> MissingKey(ai.value[i]).None?
    ensures r.Success? ==>
      var ai := Gemini.MapToCoa(reply, decode, AsJson).value;
      var ms := r.value.mappings;
      var s := r.value.summary;
      && |ms| == |ai|
      && (forall i :: 0 <= i < |ms| ==> CopiedFrom(ms[i], ai[i]) && ms[i].status != Rejected)
      && s.totalItems == |ms|
      && s.highConfidence + s.mediumConfidence + s.lowConfidence == s.totalItems
      && s.autoApproved == s.highConfidence
  {
    match Gemini.MapToCoa(reply, decode, AsJson)
    case Failure(e) => Failure(HttpError(500, Gemini.ErrorText(e)))
    case Success(ai) =>
      match ToMappings(ai)
      case Failure(e) => Failure(HttpError(500, e))
      case Success(ms) =>
        SummaryPartition(ms);
        AutoApprovedIsHigh(ms);
        Success(MappingResponse(ms, Summarize(ms)))
  }

  // ---------------------------------------------------------------------
  // approval echo

  datatype ApprovalResult = ApprovalResult(status: string, action: string, updatedCount: nat)

  /** `approve_mappings`: nothing is stored; the action is echoed without
      validation and every requested id is reported as updated. */
  function ApproveMappings(engagementId: string, mappingIds: seq<string>, action: string,
                           overrides: Option<map<string, string>>): (r: ApprovalResult)
    ensures r.status == "success"
    ensures r.action == action
    ensures r.updatedCount == |mappingIds|
  {
    ApprovalResult("success", action, |mappingIds|)
  }

  /** The approval echo depends only on the action and the number of ids. */
  lemma ApprovalIgnoresState(e1: string, e2: string, ids1: seq<string>, ids2: seq<string>,
                             action: string, o1: Option<map<string, string>>, o2: Option<map<string, string>>)
    requires |ids1| == |ids2|
    ensures ApproveMappings(e1, ids1, action, o1) == ApproveMappings(e2, ids2, action, o2)
  {
  }

  // ---------------------------------------------------------------------
  // canonical chart of accounts

  datatype CoaChild = CoaChild(id: string, name: string)

  datatype CoaAccount = CoaAccount(
    id: string,
    name: string,
    parent: Option<string>,
    statement: string,
    children: seq<CoaChild>)

  /** `child` is `parent` followed by a dot and a non-empty, dot-free suffix. */
  predicate IsChildId(parent: string, child: string) {
    && |child| > |parent| + 1
    && child[..|parent| + 1] == parent + "."
    && '.' !in child[|parent| + 1..]
  }

  /** Top-level ids are distinct, top-level accounts have no parent, and every
      child id extends its parent's id by one dotted component. */
  predicate WellFormedCoa(coa: seq<CoaAccount>) {
    && (forall i, j :: 0 <= i < j < |coa| ==> coa[i].id != coa[j].id)
    && (forall i :: 0 <= i < |coa| ==> coa[i].parent.None?)
    && (forall i, k :: 0 <= i < |coa| && 0 <= k < |coa[i].children| ==>
          IsChildId(coa[i].id, coa[i].children[k].id))
  }

  /** A top-level income-statement account whose children are named by
      their id suffix: child `(suffix, name)` gets id `id + "." + suffix`. */
  function TopAccount(id: string, name: string, kids: seq<(string, string)>): (a: CoaAccount)
    requires forall k :: 0 <= k < |kids| ==> |kids[k].0| > 0 && '.' !in kids[k].0
    ensures a.id == id && a.parent.None? && |a.children| == |kids|
    ensures forall k :: 0 <= k < |kids| ==> IsChildId(id, a.children[k].id)
  {
    var children := seq(|kids|, k requires 0 <= k < |kids| => CoaChild(id + "." + kids[k].0, kids[k].1));
    assert forall k :: 0 <= k < |kids| ==> children[k].id[..|id| + 1] == id + ".";
    assert forall k :: 0 <= k < |kids| ==> children[k].id[|id| + 1..] == kids[k].0;
    CoaAccount(id, name, None, "income_statement", children)
  }

  /** The built-in accounts: id, name, and each child's id suffix and name. */
  const CanonicalAccounts: seq<(string, string, seq<(string, string)>)> := [
    ("revenue", "Revenue", [
      ("product", "Product Revenue"),
      ("service", "Service Revenue"),
      ("other", "Other Revenue")]),
    ("cogs", "Cost of Revenue", [
      ("materials", "Direct Materials"),
      ("labor", "Direct Labor"),
      ("overhead", "Manufacturing Overhead")]),
    ("opex", "Operating Expenses", [
      ("rd", "Research & Development"),
      ("sales", "Sales & Marketing"),
      ("ga", "General & Administrative")])
  ]

  /** `_load_canonical_coa`: the built-in three-account tree, whatever the
      template name. */
  function LoadCanonicalCoa(template: string): (coa: seq<CoaAccount>)
    ensures |coa| == 3
    ensures WellFormedCoa(coa)
    ensures forall i :: 0 <= i < |coa| ==> |coa[i].children| == 3
    ensures forall i :: 0 <= i < |coa| ==>
      coa[i].id == CanonicalAccounts[i].0 && coa[i].name == CanonicalAccounts[i].1
  {
    CanonicalSuffixes();
    seq(|CanonicalAccounts|, i requires 0 <= i < |CanonicalAccounts| =>
      TopAccount(CanonicalAccounts[i].0, CanonicalAccounts[i].1, CanonicalAccounts[i].2))
  }

  /** Every built-in child suffix is a non-empty, dot-free id component,
      every account has three children, and the account ids differ. */
  lemma CanonicalSuffixes()
    ensures |CanonicalAccounts| == 3
    ensures forall i :: 0 <= i < |CanonicalAccounts| ==> |CanonicalAccounts[i].2| == 3
    ensures forall i, k :: 0 <= i < |CanonicalAccounts| && 0 <= k < |CanonicalAccounts[i].2| ==>
      |CanonicalAccounts[i].2[k].0| > 0 && '.' !in CanonicalAccounts[i].2[k].0
    ensures forall i, j :: 0 <= i < j < |CanonicalAccounts| ==> CanonicalAccounts[i].0 != CanonicalAccounts[j].0
  {
    var t := CanonicalAccounts;
    assert t[0].0 == "revenue" && t[1].0 == "cogs" && t[2].0 == "opex";
    assert t[0].2[0].0 == "product" && t[0].2[1].0 == "service" && t[0].2[2].0 == "other";
    assert t[1].2[0].0 == "materials" && t[1].2[1].0 == "labor" && t[1].2[2].0 == "overhead";
    assert t[2].2[0].0 == "rd" && t[2].2[1].0 == "sales" && t[2].2[2].0 == "ga";
  }
}
