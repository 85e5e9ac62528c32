/** Reading an approval's status from the API (`map_status_with_confirmation` and
    `verify_openvtc_confirmation` in approval_poll.rs). Signatures are checked by functions
    given from outside. */
module ApprovalStatus {
  import opened Wrappers
  import opened PolicyRules

  datatype Decision = Approve | Deny

  /** The outside checks: a decision credential against a signing key, and the signer a
      trust-task proof verifies to; and this gateway's own identity. */
  datatype Verifier = Verifier(
    signingKey: Option<string>, vcVerifies: (Json, string) -> bool, proofSigner: Json -> Option<string>,
    relyingPartyDid: string)

  datatype StatusReply = StatusReply(status: string, decisionVc: Option<Json>, managerConfirmation: Option<Json>)

  const STEP_UP := "auth/step-up/approve-response/0.2"
  const STEP_UP_TYPE := "https://trusttasks.org/spec/auth/step-up/approve-response/0.2"

  function VerifyConfirmation(v: Verifier, confirmation: Json): bool {
    if StringAt(confirmation, "protocol") != Some(STEP_UP) then true
    else
      match confirmation.Get("document")
      case None => false
      case Some(document) =>
        if StringAt(document, "type") != Some(STEP_UP_TYPE) then false
        else
          match document.Get("payload")
          case Some(Obj(fields)) =>
            var payload := Obj(fields);
            if || StringAt(payload, "decision") != Some("approved")
               || payload.Get("subject") != confirmation.Get("subjectDid")
               || payload.Get("sessionId") != confirmation.Get("approvalId")
               || payload.Get("challenge") != confirmation.Get("requestTaskHash")
               || StringAt(document, "recipient") != Some(v.relyingPartyDid)
            then false
            else
              (match StringAt(confirmation, "approverDid")
               case None => false
               case Some(signer) =>
                 v.proofSigner(document) == Some(signer) && StringAt(document, "issuer") == Some(signer))
          case _ => false
  }

  function MapStatus(v: Verifier, reply: StatusReply): Option<Decision> {
    if reply.status == "approved" then
      if reply.managerConfirmation.Some? && !VerifyConfirmation(v, reply.managerConfirmation.value) then Some(Deny)
      else if reply.decisionVc.None? then Some(Deny)
      else if v.signingKey.None? then Some(Deny)
      else if v.vcVerifies(reply.decisionVc.value, v.signingKey.value) then Some(Approve)
      else Some(Deny)
    else if reply.status == "denied" || reply.status == "expired" then Some(Deny)
    else None
  }

  /** `document` is the confirmation's signed document: it approves this subject, session and
      challenge, is addressed to this gateway, and is issued and signed by the approver. */
  predicate Binds(v: Verifier, confirmation: Json, document: Json, payload: Json, approver: string) {
    && confirmation.Get("document") == Some(document)
    && document.Get("payload") == Some(payload) && payload.Obj?
    && document.Get("type") == Some(Str(STEP_UP_TYPE))
    && payload.Get("decision") == Some(Str("approved"))
    && payload.Get("subject") == confirmation.Get("subjectDid")
    && payload.Get("sessionId") == confirmation.Get("approvalId")
    && payload.Get("challenge") == confirmation.Get("requestTaskHash")
    && document.Get("recipient") == Some(Str(v.relyingPartyDid))
    && confirmation.Get("approverDid") == Some(Str(approver))
    && document.Get("issuer") == Some(Str(approver))
    && v.proofSigner(document) == Some(approver)
  }

  ghost predicate WalletBinds(v: Verifier, confirmation: Json) {
    exists document: Json, payload: Json, approver: string :: Binds(v, confirmation, document, payload, approver)
  }

  /** The proof an approving reply must carry: a decision credential that verifies under the
      configured key, and, if it comes with a step-up confirmation, one that binds. */
  ghost predicate ProvesApproval(v: Verifier, reply: StatusReply) {
    && reply.status == "approved"
    && reply.decisionVc.Some? && v.signingKey.Some? && v.vcVerifies(reply.decisionVc.value, v.signingKey.value)
    && (reply.managerConfirmation.Some? ==>
          || reply.managerConfirmation.value.Get("protocol") != Some(Str(STEP_UP))
          || WalletBinds(v, reply.managerConfirmation.value))
  }

  /** The reply releases a held request exactly when it proves the approval; any other
      "approved" reply denies, as do "denied" and "expired"; all else keeps it waiting. */
  lemma MapStatusIff(v: Verifier, reply: StatusReply)
    ensures MapStatus(v, reply) == Some(Approve) <==> ProvesApproval(v, reply)
    ensures MapStatus(v, reply) == None <==> reply.status !in {"approved", "denied", "expired"}
  {
    if reply.managerConfirmation.Some? {
      ConfirmationIff(v, reply.managerConfirmation.value);
    }
  }

  lemma ConfirmationIff(v: Verifier, c: Json)
    ensures VerifyConfirmation(v, c) <==> c.Get("protocol") != Some(Str(STEP_UP)) || WalletBinds(v, c)
  {
    if VerifyConfirmation(v, c) && c.Get("protocol") == Some(Str(STEP_UP)) {
      var document := c.Get("document").value;
      var payload := document.Get("payload").value;
      assert Binds(v, c, document, payload, StringAt(c, "approverDid").value);
    }
  }
}
