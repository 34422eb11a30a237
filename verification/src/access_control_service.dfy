/** The communication layer's access-control vocabulary and its conversions
    to and from the protobuf wire enums.

    Every enum here is a C++ enum on an integer, so a value outside the
    listed enumerators can be held; the `Unlisted…` variants stand for
    those. The agent API and several services write the remote-view feature
    as `AllowPartnerViewDesktop`; it is the same enumerator as `RemoteView`
    here. The header that declares these enums is not part of this model. */
module AccessControlService {

  /** `AccessControlService::AccessControl`: the features under access control. */
  datatype Feature = FileTransfer | RemoteView | RemoteControl | ScreenRecording | UnlistedFeature(raw: int)

  /** `AccessControlService::Access`. */
  datatype Access = Allowed | AfterConfirmation | Denied | UnlistedAccess(raw: int)

  /** The protobuf enums `tvaccesscontrolservice::AccessControl` and `::Access`. */
  datatype WireFeature =
    | WireFileTransfer | WireRemoteView | WireRemoteControl | WireScreenRecording
    | WireUnlistedFeature(raw: int)

  datatype WireAccess = WireAllowed | WireAfterConfirmation | WireDenied | WireUnlistedAccess(raw: int)

  /** Every listed wire feature is valid, screen recording included. */
  predicate ValidateAccessControl(w: WireFeature)
    ensures ValidateAccessControl(w) <==> !w.WireUnlistedFeature?
  {
    w == WireFileTransfer || w == WireRemoteView || w == WireRemoteControl || w == WireScreenRecording
  }

  /** Every listed wire access level is valid. */
  predicate ValidateAccess(w: WireAccess)
    ensures ValidateAccess(w) <==> !w.WireUnlistedAccess?
  {
    w == WireAllowed || w == WireAfterConfirmation || w == WireDenied
  }

  /** `ToAccessControl`: the result flag and the output parameter, which
      keeps its `prior` value when the conversion fails. */
  function ToAccessControl(w: WireFeature, prior: Feature): (r: (bool, Feature))
    ensures !r.0 ==> r.1 == prior
    ensures r.0 ==> !r.1.UnlistedFeature?
  {
    match w
    case WireScreenRecording => (true, ScreenRecording)
    case WireRemoteView => (true, RemoteView)
    case WireRemoteControl => (true, RemoteControl)
    case WireFileTransfer => (true, FileTransfer)
    case WireUnlistedFeature(_) => (false, prior)
  }

  /** `FromAccessControl`: succeeds for every listed feature. */
  function FromAccessControl(f: Feature, prior: WireFeature): (r: (bool, WireFeature))
    ensures r.0 <==> !f.UnlistedFeature?
    ensures !r.0 ==> r.1 == prior
    ensures r.0 ==> ValidateAccessControl(r.1)
  {
    match f
    case ScreenRecording => (true, WireScreenRecording)
    case RemoteView => (true, WireRemoteView)
    case RemoteControl => (true, WireRemoteControl)
    case FileTransfer => (true, WireFileTransfer)
    case UnlistedFeature(_) => (false, prior)
  }

  function ToAccess(w: WireAccess, prior: Access): (r: (bool, Access))
    ensures !r.0 ==> r.1 == prior
    ensures r.0 ==> !r.1.UnlistedAccess?
  {
    match w
    case WireAllowed => (true, Allowed)
    case WireAfterConfirmation => (true, AfterConfirmation)
    case WireDenied => (true, Denied)
    case WireUnlistedAccess(_) => (false, prior)
  }

  function FromAccess(a: Access, prior: WireAccess): (r: (bool, WireAccess))
    ensures r.0 <==> !a.UnlistedAccess?
    ensures !r.0 ==> r.1 == prior
    ensures r.0 ==> ValidateAccess(r.1)
  {
    match a
    case Allowed => (true, WireAllowed)
    case AfterConfirmation => (true, WireAfterConfirmation)
    case Denied => (true, WireDenied)
    case UnlistedAccess(_) => (false, prior)
  }

  /** Validation agrees with conversion, and the two directions are inverse
      on the listed features. */
  lemma FeatureRoundTrip(f: Feature, w: WireFeature, pf: Feature, pw: WireFeature)
    ensures ValidateAccessControl(w) <==> ToAccessControl(w, pf).0
    ensures !f.UnlistedFeature? ==> ToAccessControl(FromAccessControl(f, pw).1, pf) == (true, f)
    ensures ValidateAccessControl(w) ==> FromAccessControl(ToAccessControl(w, pf).1, pw) == (true, w)
  {
  }

  /** The same for access levels. */
  lemma AccessRoundTrip(a: Access, w: WireAccess, pa: Access, pw: WireAccess)
    ensures ValidateAccess(w) <==> ToAccess(w, pa).0
    ensures !a.UnlistedAccess? ==> ToAccess(FromAccess(a, pw).1, pa) == (true, a)
    ensures ValidateAccess(w) ==> FromAccess(ToAccess(w, pa).1, pw) == (true, w)
  {
  }
}
