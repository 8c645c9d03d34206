/** The capture screen: a camera that takes one photo, then a preview with a
    description box, a retake button and a submit button that does nothing
    yet. */
module Capture {
  import opened Base

  /** The camera permission object; None until the permission hook answers. */
  datatype Permission = Permission(granted: bool)

  /** What the screen renders. */
  datatype View =
    | Blank                               // no permission object yet
    | PermissionPrompt                    // permission not granted
    | Preview(photo: string, text: string)
    | Camera

  /** The render decision: permission first, then a captured photo (a
      non-empty uri, since the empty string is falsy), then the camera. */
  function ViewOf(permission: Option<Permission>, capturedPhoto: Option<string>, photoText: string): (v: View)
    ensures v == Blank <==> permission.None?
    ensures v == PermissionPrompt <==> permission.Some? && !permission.value.granted
    ensures v.Preview? <==>
      permission.Some? && permission.value.granted && capturedPhoto.Some? && capturedPhoto.value != ""
    ensures v.Preview? ==> v.photo == capturedPhoto.value && v.text == photoText
    ensures v == Camera ==> capturedPhoto.None? || capturedPhoto.value == ""
  {
    if permission.None? then Blank
    else if !permission.value.granted then PermissionPrompt
    else if capturedPhoto.Some? && capturedPhoto.value != "" then Preview(capturedPhoto.value, photoText)
    else Camera
  }

  class RecordScreen {
    var permission: Option<Permission>
    var capturedPhoto: Option<string>
    var photoText: string

    function CurrentView(): View
      reads this
    {
      ViewOf(permission, capturedPhoto, photoText)
    }

    /** The first render: no photo and an empty description. */
    constructor (permission: Option<Permission>)
      ensures this.permission == permission && capturedPhoto.None? && photoText == ""
    {
      this.permission := permission;
      capturedPhoto, photoText := None, "";
    }

    /** The permission hook reports a new permission object. */
    method PermissionChanged(p: Option<Permission>)
      modifies this`permission
      ensures permission == p
    {
      permission := p;
    }

    /** `takePicture`: when the camera ref is mounted (`cameraReady`) and
        the capture succeeds, the photo's uri is stored. `shot` is what
        `takePictureAsync` gave: the uri, or None when it rejected, in which
        case the handler stops before storing anything. Without a mounted ref
        nothing happens. The description is never touched. */
    method TakePicture(cameraReady: bool, shot: Option<string>)
      modifies this`capturedPhoto
      ensures cameraReady && shot.Some? ==> capturedPhoto == shot
      ensures !cameraReady || shot.None? ==> capturedPhoto == old(capturedPhoto)
    {
      if cameraReady {
        match shot {
          case None =>
          case Some(uri) => capturedPhoto := Some(uri);
        }
      }
    }

    /** `handleRetake`: the photo and the description are both discarded, so
        a granted screen returns to the camera. */
    method HandleRetake()
      modifies this`capturedPhoto, this`photoText
      ensures capturedPhoto.None? && photoText == ""
      ensures permission.Some? && permission.value.granted ==> CurrentView() == Camera
    {
      capturedPhoto, photoText := None, "";
    }

    /** `handleSubmit` is empty: nothing changes. */
    method HandleSubmit()
      ensures unchanged(this)
    {
    }

    /** Typing in the description box changes the description only. */
    method SetPhotoText(t: string)
      modifies this`photoText
      ensures photoText == t
    {
      photoText := t;
    }
  }
}
