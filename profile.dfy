/** The profile page (profile/page.tsx): an edit buffer `editedUser` beside
    the saved `user`, the notification preferences, and the password form
    with its two validation rules. Every handler builds a spread copy, so each
    is a function from the page state to the next page state. */
module Profile {

  datatype Notifications = Notifications(email: bool, assignments: bool, grades: bool,
                                         announcements: bool, reminders: bool)

  datatype User = User(id: int, name: string, email: string, phone: string, studentId: string,
                       department: string, yearOfStudy: string, about: string, profileImage: string,
                       notifications: Notifications)

  datatype PasswordData = PasswordData(currentPassword: string, newPassword: string, confirmPassword: string)

  datatype Page = Page(user: User, isEditing: bool, editedUser: User, isPasswordChanging: bool,
                       passwordData: PasswordData, passwordError: string)

  /** The fields the form's inputs (`name`, `email`, `phone`), selects
      (`department`, `yearOfStudy`) and textarea (`about`) write. */
  datatype Field = Name | Email | Phone | Department | YearOfStudy | About

  datatype NotificationKind = EmailKind | AssignmentsKind | GradesKind | AnnouncementsKind | RemindersKind

  datatype PasswordField = CurrentPassword | NewPassword | ConfirmPassword

  /** What a checkbox reports: a boolean or "indeterminate". */
  datatype CheckedState = Checked(on: bool) | Indeterminate

  const EmptyPasswords := PasswordData("", "", "")
  const MismatchMessage := "Passwords do not match"
  const TooShortMessage := "Password must be at least 8 characters long"
  const MinPasswordLength := 8

  /** The page as first rendered for a given user. */
  function Initial(user: User): Page
  {
    Page(user, false, user, false, EmptyPasswords, "")
  }

  function FieldOf(u: User, f: Field): string
  {
    match f
    case Name => u.name
    case Email => u.email
    case Phone => u.phone
    case Department => u.department
    case YearOfStudy => u.yearOfStudy
    case About => u.about
  }

  function NotificationOf(n: Notifications, k: NotificationKind): bool
  {
    match k
    case EmailKind => n.email
    case AssignmentsKind => n.assignments
    case GradesKind => n.grades
    case AnnouncementsKind => n.announcements
    case RemindersKind => n.reminders
  }

  /** `{ ...u, [name]: value }` for one of the form's fields. */
  function WithField(u: User, f: Field, value: string): (r: User)
    ensures FieldOf(r, f) == value
    ensures forall g :: g != f ==> FieldOf(r, g) == FieldOf(u, g)
    ensures r.id == u.id && r.studentId == u.studentId && r.profileImage == u.profileImage
    ensures r.notifications == u.notifications
  {
    match f
    case Name => u.(name := value)
    case Email => u.(email := value)
    case Phone => u.(phone := value)
    case Department => u.(department := value)
    case YearOfStudy => u.(yearOfStudy := value)
    case About => u.(about := value)
  }

  /** `handleEditToggle`: leaving edit mode saves the buffer. */
  function HandleEditToggle(p: Page): (r: Page)
    ensures r.isEditing == !p.isEditing
    ensures r.user == if p.isEditing then p.editedUser else p.user
    ensures r.editedUser == p.editedUser
    ensures r.isPasswordChanging == p.isPasswordChanging && r.passwordData == p.passwordData
    ensures r.passwordError == p.passwordError
  {
    p.(user := if p.isEditing then p.editedUser else p.user, isEditing := !p.isEditing)
  }

  /** Entering and then leaving edit mode, with edits in between, saves exactly
      the edited buffer. */
  lemma EditRoundTrip(p: Page, f: Field, value: string)
    requires !p.isEditing
    ensures var q := HandleEditToggle(HandleInputChange(HandleEditToggle(p), f, value));
      && !q.isEditing
      && q.user == WithField(p.editedUser, f, value)
      && FieldOf(q.user, f) == value
  {
  }

  /** `handleInputChange`, `handleSelectChange` and the about textarea:
      only the named field of the buffer changes. */
  function HandleInputChange(p: Page, f: Field, value: string): (r: Page)
    ensures r.editedUser == WithField(p.editedUser, f, value)
    ensures r.user == p.user && r.isEditing == p.isEditing
    ensures r.isPasswordChanging == p.isPasswordChanging && r.passwordData == p.passwordData
    ensures r.passwordError == p.passwordError
  {
    p.(editedUser := WithField(p.editedUser, f, value))
  }

  function WithNotification(n: Notifications, k: NotificationKind, on: bool): (r: Notifications)
    ensures NotificationOf(r, k) == on
    ensures forall j :: j != k ==> NotificationOf(r, j) == NotificationOf(n, j)
  {
    match k
    case EmailKind => n.(email := on)
    case AssignmentsKind => n.(assignments := on)
    case GradesKind => n.(grades := on)
    case AnnouncementsKind => n.(announcements := on)
    case RemindersKind => n.(reminders := on)
  }

  /** `handleNotificationChange`: only the named flag of the buffer changes,
      and "indeterminate" counts as unchecked. */
  function HandleNotificationChange(p: Page, checked: CheckedState, k: NotificationKind): (r: Page)
    ensures NotificationOf(r.editedUser.notifications, k) == (checked.Checked? && checked.on)
    ensures forall j :: j != k ==>
      NotificationOf(r.editedUser.notifications, j) == NotificationOf(p.editedUser.notifications, j)
    ensures forall f :: FieldOf(r.editedUser, f) == FieldOf(p.editedUser, f)
    ensures r.editedUser == p.editedUser.(notifications := r.editedUser.notifications)
    ensures r.user == p.user && r.isEditing == p.isEditing
    ensures r.isPasswordChanging == p.isPasswordChanging && r.passwordData == p.passwordData
    ensures r == p.(editedUser := r.editedUser)
  {
    var on := if checked.Indeterminate? then false else checked.on;
    p.(editedUser := p.editedUser.(notifications := WithNotification(p.editedUser.notifications, k, on)))
  }

  /** "Save Notification Preferences": only the notifications block is copied. */
  function SaveNotifications(p: Page): (r: Page)
    ensures r.user.notifications == p.editedUser.notifications
    ensures forall f :: FieldOf(r.user, f) == FieldOf(p.user, f)
    ensures r.user.id == p.user.id && r.user.studentId == p.user.studentId
    ensures r.user.profileImage == p.user.profileImage
    ensures r.editedUser == p.editedUser && r.isEditing == p.isEditing
    ensures r == p.(user := r.user)
  {
    p.(user := p.user.(notifications := p.editedUser.notifications))
  }

  /** "Change Password" button. */
  function OpenPasswordForm(p: Page): (r: Page)
    ensures r.isPasswordChanging && r == p.(isPasswordChanging := true)
  {
    p.(isPasswordChanging := true)
  }

  /** `handlePasswordChange`: only the named entry changes. */
  function HandlePasswordChange(p: Page, f: PasswordField, value: string): (r: Page)
    ensures f == CurrentPassword ==> r.passwordData == p.passwordData.(currentPassword := value)
    ensures f == NewPassword ==> r.passwordData == p.passwordData.(newPassword := value)
    ensures f == ConfirmPassword ==> r.passwordData == p.passwordData.(confirmPassword := value)
    ensures r == p.(passwordData := r.passwordData)
  {
    match f
    case CurrentPassword => p.(passwordData := p.passwordData.(currentPassword := value))
    case NewPassword => p.(passwordData := p.passwordData.(newPassword := value))
    case ConfirmPassword => p.(passwordData := p.passwordData.(confirmPassword := value))
  }

  /** JavaScript's `length`: UTF-16 code units, so a character outside the
      Basic Multilingual Plane counts twice. */
  function Utf16Length(s: string): (n: nat)
    ensures |s| <= n <= 2 * |s|
  {
    if s == [] then 0 else (if s[0] as int >= 0x1_0000 then 2 else 1) + Utf16Length(s[1..])
  }

  datatype Verdict = Mismatch | TooShort | Accepted

  /** The validation chain of `handlePasswordSubmit`: the first failing rule wins. */
  function CheckPassword(d: PasswordData): (v: Verdict)
    ensures v == Mismatch <==> d.newPassword != d.confirmPassword
    ensures v == TooShort <==> d.newPassword == d.confirmPassword && Utf16Length(d.newPassword) < MinPasswordLength
    ensures v == Accepted <==> d.newPassword == d.confirmPassword && Utf16Length(d.newPassword) >= MinPasswordLength
  {
    if d.newPassword != d.confirmPassword then Mismatch
    else if Utf16Length(d.newPassword) < MinPasswordLength then TooShort
    else Accepted
  }

  /** The current password is never looked at. */
  lemma CurrentPasswordIgnored(d: PasswordData, current: string)
    ensures CheckPassword(d.(currentPassword := current)) == CheckPassword(d)
  {
  }

  /** `handlePasswordSubmit`. */
  function HandlePasswordSubmit(p: Page): (r: Page)
    ensures CheckPassword(p.passwordData) == Mismatch ==> r == p.(passwordError := MismatchMessage)
    ensures CheckPassword(p.passwordData) == TooShort ==> r == p.(passwordError := TooShortMessage)
    ensures CheckPassword(p.passwordData) == Accepted ==>
      r == p.(passwordError := "", isPasswordChanging := false, passwordData := EmptyPasswords)
    ensures r.user == p.user && r.editedUser == p.editedUser && r.isEditing == p.isEditing
  {
    match CheckPassword(p.passwordData)
    case Mismatch => p.(passwordError := MismatchMessage)
    case TooShort => p.(passwordError := TooShortMessage)
    case Accepted => p.(passwordError := "", isPasswordChanging := false, passwordData := EmptyPasswords)
  }

  /** The form's Cancel button. */
  function CancelPasswordChange(p: Page): (r: Page)
    ensures !r.isPasswordChanging && r.passwordData == EmptyPasswords && r.passwordError == ""
    ensures r.user == p.user && r.editedUser == p.editedUser && r.isEditing == p.isEditing
  {
    p.(isPasswordChanging := false, passwordData := EmptyPasswords, passwordError := "")
  }

  /** A rejected submission keeps the form open with what was typed; an
      accepted one leaves the page exactly as Cancel would. */
  lemma SubmitOutcomes(p: Page)
    ensures HandlePasswordSubmit(p).passwordError == "" <==> CheckPassword(p.passwordData) == Accepted
    ensures CheckPassword(p.passwordData) != Accepted ==>
      HandlePasswordSubmit(p).passwordData == p.passwordData
      && HandlePasswordSubmit(p).isPasswordChanging == p.isPasswordChanging
    ensures CheckPassword(p.passwordData) == Accepted ==> HandlePasswordSubmit(p) == CancelPasswordChange(p)
  {
  }

  /** Opening the form and cancelling it is the same as cancelling; opening it
      and submitting keeps the user cells, and the form stays open exactly
      when the submission is rejected. */
  lemma PasswordFormCycle(p: Page)
    ensures CancelPasswordChange(OpenPasswordForm(p)) == CancelPasswordChange(p)
    ensures var r := HandlePasswordSubmit(OpenPasswordForm(p));
      && r.user == p.user && r.editedUser == p.editedUser && r.isEditing == p.isEditing
      && (r.isPasswordChanging <==> CheckPassword(p.passwordData) != Accepted)
      && (CheckPassword(p.passwordData) != Accepted ==> r.passwordData == p.passwordData)
  {
  }

  /** Seven ASCII letters are too short; two characters outside the Basic
      Multilingual Plane already count four. */
  lemma LengthIsCountedInCodeUnits()
    ensures CheckPassword(PasswordData("", "abcdefg", "abcdefg")) == TooShort
    ensures CheckPassword(PasswordData("", "abcdefgh", "abcdefgh")) == Accepted
    ensures Utf16Length("\U{1F600}\U{1F600}") == 4
  {
  }
}
