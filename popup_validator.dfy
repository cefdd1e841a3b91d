/**
 * internal/services/popup_validator.go: the enumerations a popup's type,
 * trigger and position must come from, checked in a fixed order, and the
 * containsString search both validators use.
 */
module PopupValidator {
  import opened Common

  /** containsString: a front-to-back search that stops at the first equal element. */
  function ContainsString(slice: seq<string>, item: string): (r: bool)
    ensures r <==> exists i :: 0 <= i < |slice| && slice[i] == item
  {
    if |slice| == 0 then false
    else if slice[0] == item then true
    else
      var r := ContainsString(slice[1..], item);
      assert r ==> exists i :: 0 <= i < |slice| && slice[i] == item by {
        if r { var i :| 0 <= i < |slice| - 1 && slice[1..][i] == item; assert slice[i + 1] == item; }
      }
      assert (exists i :: 0 <= i < |slice| && slice[i] == item) ==> r by {
        if exists i :: 0 <= i < |slice| && slice[i] == item {
          var i :| 0 <= i < |slice| && slice[i] == item;
          assert i > 0 && slice[1..][i - 1] == item;
        }
      }
      r
  }

  const PopupTypes := ["modal", "toast", "banner", "sidebar", "overlay"]
  const TriggerTypes := ["page_load", "time_delay", "scroll_percentage", "element_click", "exit_intent", "form_submit"]
  const Positions := ["top", "bottom", "left", "right", "center", "top-left", "top-right", "bottom-left", "bottom-right"]

  /** The fields of CreatePopupRequest and UpdatePopupRequest the validator reads. */
  datatype PopupRequest = PopupRequest(popupType: string, triggerType: string, position: string)

  function ValidatePopupType(popupType: string): (v: Verdict)
    ensures v == Accept <==> popupType in PopupTypes
    ensures v != Accept ==> v == Reject("invalid popup type")
  {
    if !ContainsString(PopupTypes, popupType) then Reject("invalid popup type") else Accept
  }

  function ValidateTriggerType(triggerType: string): (v: Verdict)
    ensures v == Accept <==> triggerType in TriggerTypes
    ensures v != Accept ==> v == Reject("invalid trigger type")
  {
    if !ContainsString(TriggerTypes, triggerType) then Reject("invalid trigger type") else Accept
  }

  /** A position is optional: "" passes, otherwise one of the nine placements. */
  function ValidatePosition(position: string): (v: Verdict)
    ensures v == Accept <==> position == "" || position in Positions
    ensures v != Accept ==> v == Reject("invalid position")
  {
    if position == "" then Accept
    else if !ContainsString(Positions, position) then Reject("invalid position")
    else Accept
  }

  /** ValidateCreateRequest: popup type, then trigger type, then position; the first error wins. */
  function ValidateCreateRequest(req: PopupRequest): Verdict {
    var t := ValidatePopupType(req.popupType);
    if t != Accept then t
    else
      var g := ValidateTriggerType(req.triggerType);
      if g != Accept then g
      else ValidatePosition(req.position)
  }

  /** ValidateUpdateRequest: as for creation, but an empty type or trigger is not checked. */
  function ValidateUpdateRequest(req: PopupRequest): Verdict {
    var t := if req.popupType != "" then ValidatePopupType(req.popupType) else Accept;
    if t != Accept then t
    else
      var g := if req.triggerType != "" then ValidateTriggerType(req.triggerType) else Accept;
      if g != Accept then g
      else ValidatePosition(req.position)
  }

  /** A create request passes exactly when all three fields do, and a failure names the first bad field. */
  lemma CreateRequestSpec(req: PopupRequest)
    ensures ValidateCreateRequest(req) == Accept <==>
      req.popupType in PopupTypes && req.triggerType in TriggerTypes
      && (req.position == "" || req.position in Positions)
    ensures req.popupType !in PopupTypes ==> ValidateCreateRequest(req) == Reject("invalid popup type")
    ensures req.popupType in PopupTypes && req.triggerType !in TriggerTypes ==>
      ValidateCreateRequest(req) == Reject("invalid trigger type")
  {
  }

  /** An update with nothing set passes, and any request fit for creation is fit for update. */
  lemma UpdateRequestSpec(req: PopupRequest)
    ensures ValidateUpdateRequest(PopupRequest("", "", "")) == Accept
    ensures ValidateCreateRequest(req) == Accept ==> ValidateUpdateRequest(req) == Accept
    ensures ValidateUpdateRequest(req) == Accept <==>
      (req.popupType == "" || req.popupType in PopupTypes)
      && (req.triggerType == "" || req.triggerType in TriggerTypes)
      && (req.position == "" || req.position in Positions)
  {
  }
}
