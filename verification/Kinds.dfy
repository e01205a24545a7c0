/**
 Producer roles, message kinds and artifact kinds with their frozen names
 (`crates/o7-a1-contracts/src/kind.rs`). The eleven artifact kinds that bear envelopes
 are the message kinds, under the same names.
 */
module Kinds {
  import opened Base

  datatype Role = Controller | Coder | Reviewer | Human

  datatype MessageKind =
    | WorkOrder | CoderReport | CandidateReceipt | ReviewRequest | ReviewerReport | ReviewVerdict
    | CorrectiveDirective | CampaignFeedItem | HumanAttentionRequest | HumanCommandRequest | HumanDecision

  datatype ArtifactKind =
    | Message(kind: MessageKind)
    | ProviderExecutionReceipt | InteractionManifest | ScopeContract | CampaignEventPayload
    | CandidateState | CandidatePatch | Worktree | Policy | Task | Diff | GateLog | SandboxReport
    | ProviderSession | CommandBinding
    | ContractDocument | VerifierRegistry | CanonicalProviderRequest | RawProviderBytes | NormalizedOutput
    | ProviderMessage | ToolArguments | ToolResult | UsageRecord | CostRecord | DiagnosticLog
    | CiObservation | TerminationObservation | DetailDocument

  function RoleName(r: Role): string {
    match r
    case Controller => "controller"
    case Coder => "coder"
    case Reviewer => "reviewer"
    case Human => "human"
  }

  function MessageName(m: MessageKind): string {
    match m
    case WorkOrder => "work_order"
    case CoderReport => "coder_report"
    case CandidateReceipt => "candidate_receipt"
    case ReviewRequest => "review_request"
    case ReviewerReport => "reviewer_report"
    case ReviewVerdict => "review_verdict"
    case CorrectiveDirective => "corrective_directive"
    case CampaignFeedItem => "campaign_feed_item"
    case HumanAttentionRequest => "human_attention_request"
    case HumanCommandRequest => "human_command_request"
    case HumanDecision => "human_decision"
  }

  function KindName(k: ArtifactKind): string {
    match k
    case Message(m) => MessageName(m)
    case ProviderExecutionReceipt => "provider_execution_receipt"
    case InteractionManifest => "interaction_manifest"
    case ScopeContract => "scope_contract"
    case CampaignEventPayload => "campaign_event_payload"
    case CandidateState => "candidate_state"
    case CandidatePatch => "candidate_patch"
    case Worktree => "worktree"
    case Policy => "policy"
    case Task => "task"
    case Diff => "diff"
    case GateLog => "gate_log"
    case SandboxReport => "sandbox_report"
    case ProviderSession => "provider_session"
    case CommandBinding => "command_binding"
    case ContractDocument => "contract_document"
    case VerifierRegistry => "verifier_registry"
    case CanonicalProviderRequest => "canonical_provider_request"
    case RawProviderBytes => "raw_provider_bytes"
    case NormalizedOutput => "normalized_output"
    case ProviderMessage => "provider_message"
    case ToolArguments => "tool_arguments"
    case ToolResult => "tool_result"
    case UsageRecord => "usage_record"
    case CostRecord => "cost_record"
    case DiagnosticLog => "diagnostic_log"
    case CiObservation => "ci_observation"
    case TerminationObservation => "termination_observation"
    case DetailDocument => "detail_document"
  }

  predicate IsProviderRole(r: Role) { r.Coder? || r.Reviewer? }

  /** The one role that may author a kind. */
  function AuthorizedRole(m: MessageKind): Role {
    match m
    case CoderReport => Coder
    case ReviewerReport => Reviewer
    case HumanCommandRequest => Human
    case WorkOrder | CandidateReceipt | ReviewRequest | ReviewVerdict | CorrectiveDirective
       | CampaignFeedItem | HumanAttentionRequest | HumanDecision => Controller
  }

  predicate HasControlSizeBound(k: ArtifactKind) {
    k.ProviderExecutionReceipt? || k.ScopeContract? || k.CampaignEventPayload?
  }

  predicate IsTyped(k: ArtifactKind) { k.Message? || HasControlSizeBound(k) || k.InteractionManifest? }

  /** Bytes as bytes; every frozen name is ASCII. */
  function Ascii(s: string): (b: Bytes)
    ensures |b| == |s| && forall i :: 0 <= i < |s| ==> b[i] == s[i] as int % 256
  {
    seq(|s|, i requires 0 <= i < |s| => s[i] as int % 256)
  }

  /** A length and two letters tell the frozen names apart. */
  datatype Print = Print(length: nat, first: char, penultimate: char)

  predicate HasPrint(s: string, p: Print) {
    |s| == p.length >= 4 && s[0] == p.first && s[|s| - 2] == p.penultimate
  }

  function MessagePrint(m: MessageKind): Print {
    match m
    case WorkOrder => Print(10, 'w', 'e')
    case CoderReport => Print(12, 'c', 'r')
    case CandidateReceipt => Print(17, 'c', 'p')
    case ReviewRequest => Print(14, 'r', 's')
    case ReviewerReport => Print(15, 'r', 'r')
    case ReviewVerdict => Print(14, 'r', 'c')
    case CorrectiveDirective => Print(20, 'c', 'v')
    case CampaignFeedItem => Print(18, 'c', 'e')
    case HumanAttentionRequest => Print(23, 'h', 's')
    case HumanCommandRequest => Print(21, 'h', 's')
    case HumanDecision => Print(14, 'h', 'o')
  }

  function KindPrint(k: ArtifactKind): Print {
    match k
    case Message(m) => MessagePrint(m)
    case ProviderExecutionReceipt => Print(26, 'p', 'p')
    case InteractionManifest => Print(20, 'i', 's')
    case ScopeContract => Print(14, 's', 'c')
    case CampaignEventPayload => Print(22, 'c', 'a')
    case CandidateState => Print(15, 'c', 't')
    case CandidatePatch => Print(15, 'c', 'c')
    case Worktree => Print(8, 'w', 'e')
    case Policy => Print(6, 'p', 'c')
    case Task => Print(4, 't', 's')
    case Diff => Print(4, 'd', 'f')
    case GateLog => Print(8, 'g', 'o')
    case SandboxReport => Print(14, 's', 'r')
    case ProviderSession => Print(16, 'p', 'o')
    case CommandBinding => Print(15, 'c', 'n')
    case ContractDocument => Print(17, 'c', 'n')
    case VerifierRegistry => Print(17, 'v', 'r')
    case CanonicalProviderRequest => Print(26, 'c', 's')
    case RawProviderBytes => Print(18, 'r', 'e')
    case NormalizedOutput => Print(17, 'n', 'u')
    case ProviderMessage => Print(16, 'p', 'g')
    case ToolArguments => Print(14, 't', 't')
    case ToolResult => Print(11, 't', 'l')
    case UsageRecord => Print(12, 'u', 'r')
    case CostRecord => Print(11, 'c', 'r')
    case DiagnosticLog => Print(14, 'd', 'o')
    case CiObservation => Print(14, 'c', 'o')
    case TerminationObservation => Print(23, 't', 'o')
    case DetailDocument => Print(15, 'd', 'n')
  }

  lemma MessageNamePrint(m: MessageKind)
    ensures HasPrint(MessageName(m), MessagePrint(m))
  {
  }

  lemma ShortNamePrint(k: ArtifactKind)
    requires !k.Message? && KindPrint(k).length < 15
    ensures HasPrint(KindName(k), KindPrint(k))
  {
  }

  lemma LongNamePrint(k: ArtifactKind)
    requires !k.Message? && KindPrint(k).length >= 15
    ensures HasPrint(KindName(k), KindPrint(k))
  {
  }

  lemma KindNamePrint(k: ArtifactKind)
    ensures HasPrint(KindName(k), KindPrint(k))
  {
    if k.Message? {
      MessageNamePrint(k.kind);
      hide MessageName, MessagePrint, HasPrint;
    } else {
      if KindPrint(k).length < 15 {
        ShortNamePrint(k);
      } else {
        LongNamePrint(k);
      }
      hide KindName, KindPrint, HasPrint;
    }
  }

  lemma PrintFixesKind(a: ArtifactKind, b: ArtifactKind)
    requires KindPrint(a) == KindPrint(b)
    ensures a == b
  {
  }

  lemma PrintsAreAscii(k: ArtifactKind)
    ensures KindPrint(k).first as int < 128 && KindPrint(k).penultimate as int < 128
  {
  }

  lemma BytesFixPrint(s: string, t: string, p: Print, q: Print)
    requires HasPrint(s, p) && HasPrint(t, q) && Ascii(s) == Ascii(t)
    requires p.first as int < 128 && p.penultimate as int < 128 && q.first as int < 128 && q.penultimate as int < 128
    ensures p == q
  {
    var x, y := Ascii(s), Ascii(t);
    assert x[0] == y[0] && x[|x| - 2] == y[|y| - 2];
    assert x[0] == p.first as int && y[0] == q.first as int;
    assert x[|x| - 2] == p.penultimate as int && y[|y| - 2] == q.penultimate as int;
    assert p.first == q.first && p.penultimate == q.penultimate;
  }

  /** Two kinds whose names are the same bytes are the same kind. */
  lemma KindNameInjective(a: ArtifactKind, b: ArtifactKind)
    requires Ascii(KindName(a)) == Ascii(KindName(b))
    ensures a == b
  {
    hide KindName, KindPrint, HasPrint, Ascii;
    KindNamePrint(a);
    KindNamePrint(b);
    PrintsAreAscii(a);
    PrintsAreAscii(b);
    BytesFixPrint(KindName(a), KindName(b), KindPrint(a), KindPrint(b));
    PrintFixesKind(a, b);
  }

  lemma RoleNameInjective(a: Role, b: Role)
    requires Ascii(RoleName(a)) == Ascii(RoleName(b))
    ensures a == b
  {
    var x, y := Ascii(RoleName(a)), Ascii(RoleName(b));
    assert x[0] == y[0] && |x| == |y|;
  }
}
