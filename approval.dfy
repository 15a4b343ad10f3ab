/** The user-consent gate. The only implementation in the repository is a test double
    that answers from two flags and never fails. */
module Approval {
  import opened Types

  datatype FakeApprovalService = FakeApprovalService(
    shouldApproveAuthentication: bool,
    shouldApproveRegistration: bool)
  {
    /** A service that grants every ceremony. */
    static function AlwaysApprove(): (service: FakeApprovalService)
      ensures service.shouldApproveAuthentication && service.shouldApproveRegistration
    {
      FakeApprovalService(true, true)
    }

    /** Consent to authenticate depends only on the flag, never on the application. */
    function ApproveAuthentication(application: ApplicationParameter): (approved: bool)
      ensures approved <==> shouldApproveAuthentication
    {
      shouldApproveAuthentication
    }

    /** Consent to register depends only on the flag, never on the application. */
    function ApproveRegistration(application: ApplicationParameter): (approved: bool)
      ensures approved <==> shouldApproveRegistration
    {
      shouldApproveRegistration
    }
  }
}
