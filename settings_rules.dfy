/**
 * The settings screen's rules: record updates of the settings (`{ ...settings, field: value }`),
 * the size limit on uploaded files, the password change, and the prompt used to generate the
 * mentor's avatar. The file's contents, the stored user and the generated image are parameters.
 */
module SettingsRules {
  import opened Wrappers
  import opened Types

  /** `handleTimeChange`. */
  function SetVitaminDTime(s: AppSettings, time: string): (r: AppSettings)
    ensures r.vitaminDTime == time && r == s.(vitaminDTime := r.vitaminDTime)
  {
    s.(vitaminDTime := time)
  }

  /** `toggleVitaminD`. */
  function ToggleVitaminD(s: AppSettings): (r: AppSettings)
    ensures r.vitaminDEnabled == !s.vitaminDEnabled && r == s.(vitaminDEnabled := r.vitaminDEnabled)
  {
    s.(vitaminDEnabled := !s.vitaminDEnabled)
  }

  /** Toggling twice gives the settings back. */
  lemma ToggleTwice(s: AppSettings)
    ensures ToggleVitaminD(ToggleVitaminD(s)) == s
  {
  }

  /** The settings that hold an uploaded file. */
  datatype MediaField = CustomAlarmUrl | UserAvatar | MentorAvatar

  function Media(s: AppSettings, f: MediaField): Option<string> {
    match f
    case CustomAlarmUrl => s.customAlarmUrl
    case UserAvatar => s.userAvatar
    case MentorAvatar => s.mentorAvatar
  }

  /** `{ ...settings, [field]: value }`: the field takes the value and every other setting stays. */
  function SetMedia(s: AppSettings, f: MediaField, value: Option<string>): (r: AppSettings)
    ensures Media(r, f) == value
    ensures forall g :: g != f ==> Media(r, g) == Media(s, g)
    ensures r.vitaminDTime == s.vitaminDTime && r.vitaminDEnabled == s.vitaminDEnabled
      && r.theme == s.theme && r.accentColor == s.accentColor && r.appVolume == s.appVolume
      && r.lastInteractionTimestamp == s.lastInteractionTimestamp
  {
    match f
    case CustomAlarmUrl => s.(customAlarmUrl := value)
    case UserAvatar => s.(userAvatar := value)
    case MentorAvatar => s.(mentorAvatar := value)
  }

  /** `handleReset`: the field cleared. */
  function ResetMedia(s: AppSettings, f: MediaField): AppSettings {
    SetMedia(s, f, None)
  }

  const MiB: nat := 1024 * 1024

  /** 2 MiB for the alarm sound, 5 MiB for the pictures. */
  function SizeLimit(f: MediaField): (n: nat)
    ensures n == if f == CustomAlarmUrl then 2097152 else 5242880
  {
    if f == CustomAlarmUrl then 2 * MiB else 5 * MiB
  }

  datatype Upload = NoFile | TooLarge | Stored(settings: AppSettings)

  /**
   * `handleFileUpload`: nothing without a file; a file over the field's limit is refused; any
   * other file's data URL (`dataUrl`) is stored in the field.
   */
  function UploadFile(s: AppSettings, f: MediaField, size: Option<nat>, dataUrl: string): Upload {
    if size.None? then NoFile
    else if size.value > SizeLimit(f) then TooLarge
    else Stored(SetMedia(s, f, Some(dataUrl)))
  }

  /**
   * A file is refused exactly when it is larger than the limit, the limit itself allowed; a stored
   * file changes only its own field, and resetting that field afterwards clears it again.
   */
  lemma UploadSpec(s: AppSettings, f: MediaField, size: nat, dataUrl: string)
    ensures UploadFile(s, f, Some(size), dataUrl).TooLarge? <==> size > SizeLimit(f)
    ensures UploadFile(s, f, Some(size), dataUrl).Stored? ==>
      var r := UploadFile(s, f, Some(size), dataUrl).settings;
      Media(r, f) == Some(dataUrl) && (forall g :: g != f ==> Media(r, g) == Media(s, g))
      && ResetMedia(r, f) == ResetMedia(s, f)
    ensures UploadFile(s, f, None, dataUrl) == NoFile
  {
    if size <= SizeLimit(f) {
      var r := SetMedia(s, f, Some(dataUrl));
      assert ResetMedia(r, f) == ResetMedia(s, f) by {
        match f
        case CustomAlarmUrl =>
        case UserAvatar =>
        case MentorAvatar =>
      }
    }
  }

  // ----- password -----

  const TooShortMessage: string := "La contraseña es muy corta."
  const MismatchMessage: string := "Las contraseñas no coinciden."
  const SavedMessage: string := "¡Contraseña actualizada con éxito!"

  /** The password form: the two inputs, the message shown, and the stored user's password when a user is stored. */
  datatype PasswordForm = PasswordForm(newPassword: string, confirmPassword: string, message: string, stored: Option<string>)

  /**
   * `handleChangePassword`: too short (under four characters, the empty one included) is checked
   * first, then a mismatch; otherwise, when a user is stored, the new password is saved and both
   * inputs are cleared.
   */
  function ChangePassword(f: PasswordForm): PasswordForm {
    if f.newPassword == "" || |f.newPassword| < 4 then f.(message := TooShortMessage)
    else if f.newPassword != f.confirmPassword then f.(message := MismatchMessage)
    else if f.stored.None? then f
    else PasswordForm("", "", SavedMessage, Some(f.newPassword))
  }

  /**
   * A password is saved when it has at least four characters, matches its confirmation and a
   * user is stored; a short one is reported as short whatever the confirmation says; a refused
   * one leaves the stored password as it was, and without a stored user nothing changes.
   */
  lemma ChangePasswordSpec(f: PasswordForm)
    ensures var r := ChangePassword(f);
      (|f.newPassword| < 4 ==> r.message == TooShortMessage && r.stored == f.stored)
      && (|f.newPassword| >= 4 && f.newPassword != f.confirmPassword ==> r.message == MismatchMessage && r.stored == f.stored)
      && (|f.newPassword| >= 4 && f.newPassword == f.confirmPassword && f.stored.Some? ==>
          r.stored == Some(f.newPassword) && r.message == SavedMessage && r.newPassword == "" && r.confirmPassword == "")
      && (|f.newPassword| >= 4 && f.newPassword == f.confirmPassword && f.stored.None? ==> r == f)
  {
  }

  // ----- avatar -----

  /** `promptToUse`: the fixed instruction when the user has a photo, else the typed prompt or the default. */
  function AvatarPrompt(userAvatar: Option<string>, typed: string): (p: string)
    ensures p != ""
    ensures Truthy(userAvatar) ==> p == "Transform this person"
    ensures !Truthy(userAvatar) && typed != "" ==> p == typed
    ensures !Truthy(userAvatar) && typed == "" ==> p == "A successful person"
  {
    if Truthy(userAvatar) then "Transform this person"
    else if typed != "" then typed
    else "A successful person"
  }

  /** What a generation does: a returned image becomes the mentor's avatar and clears the prompt; none changes nothing. */
  function AfterGenerate(s: AppSettings, typed: string, image: Option<string>): (AppSettings, string) {
    if Truthy(image) then (SetMedia(s, MentorAvatar, image), "") else (s, typed)
  }

  lemma AfterGenerateSpec(s: AppSettings, typed: string, image: Option<string>)
    ensures Truthy(image) ==> (AfterGenerate(s, typed, image).0.mentorAvatar == image
      && AfterGenerate(s, typed, image).0.userAvatar == s.userAvatar && AfterGenerate(s, typed, image).1 == "")
    ensures !Truthy(image) ==> AfterGenerate(s, typed, image) == (s, typed)
  {
  }
}
