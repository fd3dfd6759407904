/**
  PermissionManager: the decisions it takes about the two runtime permissions voice input
  needs. What Android answers (checkSelfPermission, shouldShowRequestPermissionRationale) is
  an input; the "permission_prefs" store with its "has_requested_record_audio_before" flag is
  an object whose flag markPermissionAsRequested sets.
*/
module Permissions {
  import opened Base

  const RECORD_AUDIO: string := "android.permission.RECORD_AUDIO"
  const MODIFY_AUDIO_SETTINGS: string := "android.permission.MODIFY_AUDIO_SETTINGS"

  /** The request code of the voice permission request. */
  const REQUEST_RECORD_AUDIO: int := 1001

  /** PackageManager.PERMISSION_GRANTED. */
  const PERMISSION_GRANTED: int := 0

  /** What checkSelfPermission answers for the two permissions. */
  datatype Grants = Grants(recordAudio: bool, modifyAudioSettings: bool)

  /** hasVoiceRecognitionPermissions(). */
  predicate HasVoiceRecognitionPermissions(g: Grants) {
    g.recordAudio && g.modifyAudioSettings
  }

  /** `ps` names exactly the permissions missing from `g`, each once, RECORD_AUDIO first. */
  predicate ListsMissing(g: Grants, ps: seq<string>) {
    && (RECORD_AUDIO in ps <==> !g.recordAudio)
    && (MODIFY_AUDIO_SETTINGS in ps <==> !g.modifyAudioSettings)
    && (forall p | p in ps :: p == RECORD_AUDIO || p == MODIFY_AUDIO_SETTINGS)
    && |ps| <= 2
    && (|ps| == 2 ==> ps == [RECORD_AUDIO, MODIFY_AUDIO_SETTINGS])
  }

  /** There is only one such list: it is determined by the grants. */
  lemma ListsMissingIsUnique(g: Grants, a: seq<string>, b: seq<string>)
    requires ListsMissing(g, a) && ListsMissing(g, b)
    ensures a == b
  {
    if |a| == 1 {
      assert a[0] in a;
    }
    if |b| == 1 {
      assert b[0] in b;
    }
  }

  /** Both permissions are held exactly when no permission is listed as missing. */
  lemma HasPermissionsIffNoneMissing(g: Grants, ps: seq<string>)
    requires ListsMissing(g, ps)
    ensures HasVoiceRecognitionPermissions(g) <==> ps == []
  {
    if ps != [] {
      assert ps[0] in ps;
    }
  }

  /** getMissingPermissions(): the missing permissions, in the order the code checks them. */
  method GetMissingPermissions(g: Grants) returns (missing: seq<string>)
    ensures ListsMissing(g, missing)
    ensures missing == [] <==> HasVoiceRecognitionPermissions(g)
  {
    missing := [];
    if !g.recordAudio {
      missing := missing + [RECORD_AUDIO];
    }
    if !g.modifyAudioSettings {
      missing := missing + [MODIFY_AUDIO_SETTINGS];
    }
  }

  /** The ActivityCompat.requestPermissions call a request would make. */
  datatype PermissionRequest = PermissionRequest(permissions: seq<string>, requestCode: int)

  /** requestVoiceRecognitionPermissions(activity): asks for the missing permissions, if any. */
  method RequestVoiceRecognitionPermissions(g: Grants) returns (request: Option<PermissionRequest>)
    ensures request.Some? <==> !HasVoiceRecognitionPermissions(g)
    ensures request.Some? ==> && request.value.requestCode == REQUEST_RECORD_AUDIO
                              && ListsMissing(g, request.value.permissions)
  {
    var missing := GetMissingPermissions(g);
    if |missing| > 0 {
      request := Some(PermissionRequest(missing, REQUEST_RECORD_AUDIO));
    } else {
      request := None;
    }
  }

  /** grantResults.all { it == PERMISSION_GRANTED }. */
  function AllGranted(grantResults: seq<int>): (r: bool)
    ensures r <==> forall i | 0 <= i < |grantResults| :: grantResults[i] == PERMISSION_GRANTED
  {
    if grantResults == [] then true
    else grantResults[0] == PERMISSION_GRANTED && AllGranted(grantResults[1..])
  }

  /** onRequestPermissionsResult(requestCode, permissions, grantResults). */
  function OnRequestPermissionsResult(requestCode: int, permissions: seq<string>, grantResults: seq<int>): (r: bool)
    ensures r <==> && requestCode == REQUEST_RECORD_AUDIO
                   && |grantResults| > 0
                   && forall i | 0 <= i < |grantResults| :: grantResults[i] == PERMISSION_GRANTED
  {
    if requestCode == REQUEST_RECORD_AUDIO then |grantResults| > 0 && AllGranted(grantResults)
    else false
  }

  datatype PermissionStatus = FirstRequest | DeniedButCanAsk | PermanentlyDenied | Granted

  /** The "permission_prefs" store. */
  class PermissionPrefs {
    /** has_requested_record_audio_before; absent reads as false. */
    var requestedBefore: bool

    constructor ()
      ensures !requestedBefore
    {
      requestedBefore := false;
    }

    /** markPermissionAsRequested(context). */
    method MarkPermissionAsRequested()
      modifies this
      ensures requestedBefore
    {
      requestedBefore := true;
    }
  }

  /** getRecordAudioPermissionStatus(activity); `rationale` is what
      shouldShowRequestPermissionRationale answers for RECORD_AUDIO. */
  function GetRecordAudioPermissionStatus(g: Grants, rationale: bool, prefs: PermissionPrefs): (s: PermissionStatus)
    reads prefs
    ensures s == Granted <==> g.recordAudio
    ensures s == DeniedButCanAsk <==> !g.recordAudio && rationale
    ensures s == PermanentlyDenied <==> !g.recordAudio && !rationale && prefs.requestedBefore
    ensures s == FirstRequest <==> !g.recordAudio && !rationale && !prefs.requestedBefore
  {
    if g.recordAudio then Granted
    else if rationale then DeniedButCanAsk
    else if prefs.requestedBefore then PermanentlyDenied
    else FirstRequest
  }

  /** getVoiceRecognitionPermissionStatus(activity): the status of RECORD_AUDIO alone. */
  function GetVoicePermissionStatusForActivity(g: Grants, rationale: bool, prefs: PermissionPrefs): (s: PermissionStatus)
    reads prefs
    ensures s == GetRecordAudioPermissionStatus(g, rationale, prefs)
  {
    GetRecordAudioPermissionStatus(g, rationale, prefs)
  }

  /** getVoiceRecognitionPermissionStatus(context). */
  function GetVoicePermissionStatusForContext(g: Grants, prefs: PermissionPrefs): (s: PermissionStatus)
    reads prefs
    ensures s == Granted <==> HasVoiceRecognitionPermissions(g)
    ensures s != DeniedButCanAsk
    ensures prefs.requestedBefore ==> s != FirstRequest
    ensures s == FirstRequest <==> !HasVoiceRecognitionPermissions(g) && !prefs.requestedBefore
  {
    if HasVoiceRecognitionPermissions(g) then Granted
    else if prefs.requestedBefore then PermanentlyDenied
    else FirstRequest
  }

  /** The two variants agree when both permissions or neither are held and no rationale is
      shown; with RECORD_AUDIO held and MODIFY_AUDIO_SETTINGS missing, the activity variant
      says GRANTED while the context variant does not. */
  lemma StatusVariantsCompared(g: Grants, rationale: bool, prefs: PermissionPrefs)
    ensures g.recordAudio == g.modifyAudioSettings && !rationale ==>
              GetVoicePermissionStatusForActivity(g, rationale, prefs) == GetVoicePermissionStatusForContext(g, prefs)
    ensures g.recordAudio && !g.modifyAudioSettings ==>
              GetVoicePermissionStatusForActivity(g, rationale, prefs) == Granted
              && GetVoicePermissionStatusForContext(g, prefs) != Granted
  {
  }
}
