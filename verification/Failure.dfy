/** The failure classes of upstream attempts and the three questions routing asks of them. */
module Failure {

  datatype FailureClass =
    | ClientRequest
    | ProviderAmbiguousRejection
    | ProviderAuth
    | ProviderBilling
    | ProviderConfiguration
    | ProviderCapacity
    | ProviderQuota
    | ProviderTransient
    | StreamFailure
    | ProviderUnknown4xx
    | ProviderUnknown5xxOrTransport
    | ClientCancelled
    | FallbackUnavailable
    | LocalCapacity
  {
    predicate AllowsFallback() { !ClientRequest? && !ClientCancelled? }

    predicate RetriesSameTargetOnce() { ProviderAmbiguousRejection? }

    predicate AffectsCircuit() {
      !ClientRequest? && !ClientCancelled? && !ProviderAmbiguousRejection? && !LocalCapacity?
    }

    /** The classes that suspend a circuit instead of opening it. */
    predicate Suspends() {
      ProviderAuth? || ProviderBilling? || ProviderConfiguration? || ProviderUnknown4xx?
    }
  }
}
