/**
 * internal/services/rule_validator.go: the enumerations a page-modification
 * rule's type, action and position must come from, checked in a fixed order.
 */
module RuleValidator {
  import opened Common
  import opened PopupValidator

  const RuleTypes := ["inject", "replace", "remove", "modify"]
  const Actions := ["append", "prepend", "replace", "remove", "modify_attribute", "modify_text"]
  const RulePositions := ["before", "after", "inside", "replace"]

  /** The fields of CreateRuleRequest and UpdateRuleRequest the validator reads. */
  datatype RuleRequest = RuleRequest(ruleType: string, action: string, position: string)

  /** ValidateRuleType: an exact, case-sensitive match against the four rule types. */
  function ValidateRuleType(ruleType: string): (v: Verdict)
    ensures v == Accept <==> ruleType in RuleTypes
    ensures v != Accept ==> v == Reject("invalid rule type")
  {
    if !ContainsString(RuleTypes, ruleType) then Reject("invalid rule type") else Accept
  }

  function ValidateAction(action: string): (v: Verdict)
    ensures v == Accept <==> action in Actions
    ensures v != Accept ==> v == Reject("invalid action type")
  {
    if !ContainsString(Actions, action) then Reject("invalid action type") else Accept
  }

  /** A position is optional: "" passes, otherwise one of the four. */
  function ValidateRulePosition(position: string): (v: Verdict)
    ensures v == Accept <==> position == "" || position in RulePositions
    ensures v != Accept ==> v == Reject("invalid position")
  {
    if position == "" then Accept
    else if !ContainsString(RulePositions, position) then Reject("invalid position")
    else Accept
  }

  /** ValidateCreateRequest: type, then action, then position; the first error wins. */
  function ValidateCreateRule(req: RuleRequest): Verdict {
    var t := ValidateRuleType(req.ruleType);
    if t != Accept then t
    else
      var a := ValidateAction(req.action);
      if a != Accept then a
      else ValidateRulePosition(req.position)
  }

  /** ValidateUpdateRequest: as for creation, but an empty type or action is not checked. */
  function ValidateUpdateRule(req: RuleRequest): Verdict {
    var t := if req.ruleType != "" then ValidateRuleType(req.ruleType) else Accept;
    if t != Accept then t
    else
      var a := if req.action != "" then ValidateAction(req.action) else Accept;
      if a != Accept then a
      else ValidateRulePosition(req.position)
  }

  /** A create request passes exactly when all three fields do, and a failure names the first bad field. */
  lemma CreateRuleSpec(req: RuleRequest)
    ensures ValidateCreateRule(req) == Accept <==>
      req.ruleType in RuleTypes && req.action in Actions
      && (req.position == "" || req.position in RulePositions)
    ensures req.ruleType !in RuleTypes ==> ValidateCreateRule(req) == Reject("invalid rule type")
    ensures req.ruleType in RuleTypes && req.action !in Actions ==>
      ValidateCreateRule(req) == Reject("invalid action type")
    ensures req.ruleType in RuleTypes && req.action in Actions ==>
      ValidateCreateRule(req) == ValidateRulePosition(req.position)
  {
  }

  /** An update with nothing set passes, and any request fit for creation is fit for update. */
  lemma UpdateRuleSpec(req: RuleRequest)
    ensures ValidateUpdateRule(RuleRequest("", "", "")) == Accept
    ensures ValidateCreateRule(req) == Accept ==> ValidateUpdateRule(req) == Accept
    ensures ValidateUpdateRule(req) == Accept <==>
      (req.ruleType == "" || req.ruleType in RuleTypes)
      && (req.action == "" || req.action in Actions)
      && (req.position == "" || req.position in RulePositions)
  {
  }

  /** The match is case-sensitive: "Inject" is not a rule type. */
  lemma RuleTypeCaseSensitive()
    ensures ValidateRuleType("Inject") == Reject("invalid rule type")
  {
    assert "Inject"[0] != "inject"[0];
  }
}
