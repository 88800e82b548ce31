/** The status label of frontend/src/components/StatusBadge.jsx. It accepts the backend's
    English statuses and some French spellings, in any letter case; any other status is
    shown as it is. */
module StatusBadge {
  import opened Wrappers
  import Text

  /** The colour of the badge. */
  datatype Colour = Yellow | Green | Red | Gray

  datatype StatusConfig = StatusConfig(caption: string, colour: Colour)

  const PENDING_KEYS: set<string> := {"pending", "en_attente"}
  const APPROVED_KEYS: set<string> := {"accepted", "approuve", "approved"}
  const REJECTED_KEYS: set<string> := {"rejected", "refuse"}
  const CANCELLED_KEYS: set<string> := {"cancelled", "annule"}

  /** `getStatusConfig(status)`: the switch on `status?.toLowerCase()`; the default shows the
      status itself, or "Inconnu" for a missing or empty status. */
  function GetStatusConfig(status: Option<string>): (r: StatusConfig)
    ensures status.Some? && Text.ToLower(status.value) in PENDING_KEYS ==> r == StatusConfig("En attente", Yellow)
    ensures status.Some? && Text.ToLower(status.value) in APPROVED_KEYS ==> r == StatusConfig("Approuvé", Green)
    ensures status.Some? && Text.ToLower(status.value) in REJECTED_KEYS ==> r == StatusConfig("Refusé", Red)
    ensures status.Some? && Text.ToLower(status.value) in CANCELLED_KEYS ==> r == StatusConfig("Annulé", Gray)
    ensures (status.None? || Text.ToLower(status.value) !in PENDING_KEYS + APPROVED_KEYS + REJECTED_KEYS + CANCELLED_KEYS) ==>
              r == StatusConfig(if status.None? || status.value == "" then "Inconnu" else status.value, Gray)
  {
    var key := if status.Some? then Some(Text.ToLower(status.value)) else None;
    if key.Some? && key.value in PENDING_KEYS then StatusConfig("En attente", Yellow)
    else if key.Some? && key.value in APPROVED_KEYS then StatusConfig("Approuvé", Green)
    else if key.Some? && key.value in REJECTED_KEYS then StatusConfig("Refusé", Red)
    else if key.Some? && key.value in CANCELLED_KEYS then StatusConfig("Annulé", Gray)
    else StatusConfig(if status.None? || status.value == "" then "Inconnu" else status.value, Gray)
  }

  /** Letter case does not matter: a status and its lower-case form get the same label
      whenever it is one of the known statuses. */
  lemma CaseInsensitive(status: string)
    requires Text.ToLower(status) in PENDING_KEYS + APPROVED_KEYS + REJECTED_KEYS + CANCELLED_KEYS
    ensures GetStatusConfig(Some(status)) == GetStatusConfig(Some(Text.ToLower(status)))
  {
    Text.ToLowerIdempotent(status);
  }

  /** Every status the backend stores gets a French label of its own. */
  lemma BackendStatusesLabelled()
    ensures GetStatusConfig(Some("pending")).caption == "En attente"
    ensures GetStatusConfig(Some("accepted")).caption == "Approuvé"
    ensures GetStatusConfig(Some("rejected")).caption == "Refusé"
    ensures GetStatusConfig(Some("cancelled")).caption == "Annulé"
  {
    assert Text.ToLower("pending") == "pending";
    assert Text.ToLower("accepted") == "accepted";
    assert Text.ToLower("rejected") == "rejected";
    assert Text.ToLower("cancelled") == "cancelled";
  }

  /** The labels are not reconciled with the other screens: the capitalised statuses of
      the validation page are recognised only through the case folding, and a status in the
      French workflow vocabulary is shown as it is. */
  lemma OtherVocabularies()
    ensures GetStatusConfig(Some("Approved")).caption == "Approuvé"
    ensures GetStatusConfig(Some("Rejetée")) == StatusConfig("Rejetée", Gray)
    ensures GetStatusConfig(Some("")) == StatusConfig("Inconnu", Gray)
  {
    assert Text.ToLower("Approved") == "approved";
    assert Text.ToLower("Rejetée") == "rejetée";
  }
}
