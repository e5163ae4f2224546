/** The table of event types (internal/events/registry.go). */
module Events {

  import Text

  datatype Severity = Info | Warning | Alert

  datatype Definition = Definition(kind: string, hasIP: bool, severity: Severity)

  const REGISTRY: map<string, Definition> := map[
    "auth.error" := Definition("auth.error", true, Warning),
    "auth.failed" := Definition("auth.failed", true, Warning),
    "auth.success" := Definition("auth.success", true, Info),
    "delivery.completed" := Definition("delivery.completed", true, Info),
    "delivery.delivered" := Definition("delivery.delivered", true, Info),
    "delivery.failed" := Definition("delivery.failed", true, Alert),
    "security.abuse-ban" := Definition("security.abuse-ban", true, Alert),
    "security.authentication-ban" := Definition("security.authentication-ban", true, Alert),
    "security.ip-blocked" := Definition("security.ip-blocked", true, Alert),
    "server.startup" := Definition("server.startup", false, Info),
    "server.startup-error" := Definition("server.startup-error", false, Alert)
  ]

  predicate IsSupported(kind: string) {
    Text.Trim(kind) in REGISTRY
  }

  function EventSeverity(kind: string): Severity {
    if Text.Trim(kind) in REGISTRY then REGISTRY[Text.Trim(kind)].severity else Info
  }

  function SeverityRank(severity: Severity): nat {
    match severity
    case Alert => 2
    case Warning => 1
    case Info => 0
  }

  /** The characters of registered types: no white space, no separator, nothing special in markup. */
  predicate TypeChar(c: char) {
    'a' <= c <= 'z' || c == '.' || c == '-'
  }

  predicate Plain(s: string) {
    forall i :: 0 <= i < |s| ==> TypeChar(s[i])
  }

  /** The registered types, by severity. */
  const ALERTS := {"delivery.failed", "security.abuse-ban", "security.authentication-ban", "security.ip-blocked",
                   "server.startup-error"}
  const WARNINGS := {"auth.error", "auth.failed"}
  const INFOS := {"auth.success", "delivery.completed", "delivery.delivered", "server.startup"}

  lemma RegisteredTypes()
    ensures REGISTRY.Keys == ALERTS + WARNINGS + INFOS
  {
  }

  lemma RegistrySeverity(kind: string)
    ensures kind in ALERTS ==> kind in REGISTRY && REGISTRY[kind].severity == Alert
    ensures kind in WARNINGS ==> kind in REGISTRY && REGISTRY[kind].severity == Warning
    ensures kind in INFOS ==> kind in REGISTRY && REGISTRY[kind].severity == Info
  {
  }

  /** Which types are alerts, which warnings; anything else is for information. */
  lemma SeverityIs(kind: string)
    ensures EventSeverity(kind) == Alert <==> Text.Trim(kind) in ALERTS
    ensures EventSeverity(kind) == Warning <==> Text.Trim(kind) in WARNINGS
  {
    RegisteredTypes();
    RegistrySeverity(Text.Trim(kind));
  }

  lemma PlainAuthDelivery()
    ensures Plain("auth.error") && Plain("auth.failed") && Plain("auth.success")
    ensures Plain("delivery.completed") && Plain("delivery.delivered") && Plain("delivery.failed")
  {
  }

  lemma PlainSecurityServer()
    ensures Plain("security.abuse-ban") && Plain("security.authentication-ban") && Plain("security.ip-blocked")
    ensures Plain("server.startup") && Plain("server.startup-error")
  {
  }

  lemma RegisteredArePlain(kind: string)
    requires kind in REGISTRY
    ensures Plain(kind) && |kind| > 0
    ensures Text.Trim(kind) == kind && IsSupported(kind)
    ensures REGISTRY[kind].kind == kind
  {
    PlainAuthDelivery();
    PlainSecurityServer();
    Text.TrimTrims(kind);
  }

}
