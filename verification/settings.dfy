/** The settings page (src/features/settings/pages/SettingsPage.tsx): the
    ordered password checks, the normalisation of profile fields before
    saving, adding a profession, and how loaded data fills the form. */
module Settings {
  import opened Wrappers
  import opened Js
  import Identity

  datatype Profession = Profession(id: string, name: string)

  /** The page's state variables that the modelled handlers read or write. */
  datatype Page = Page(
    loading: bool, saving: bool, error: Option<string>, success: Option<string>,
    employeeName: string, nationalId: string, selectedProfession: string, email: string,
    newPassword: string, confirmPassword: string,
    professions: seq<Profession>,
    addModalOpen: bool, newProfessionName: string, adding: bool, addError: Option<string>)

  // ---------------------------------------------------------------------------
  // loadData

  /** The employee's `professions` relation as returned: absent, one object, or an array. */
  datatype ProfessionRelation = NoProfession | OneProfession(p: Profession) | ProfessionList(ps: seq<Profession>)

  datatype EmployeeRow = EmployeeRow(name: Option<string>, nationalId: Option<string>, professions: ProfessionRelation)

  /** `(Array.isArray(rel) ? rel[0] : rel)?.id || ''`. */
  function SelectedProfessionId(rel: ProfessionRelation): (id: string)
    ensures rel.NoProfession? ==> id == ""
    ensures rel.OneProfession? ==> id == rel.p.id
    ensures rel.ProfessionList? && |rel.ps| == 0 ==> id == ""
    ensures rel.ProfessionList? && |rel.ps| > 0 ==> id == rel.ps[0].id
  {
    match rel
    case NoProfession => ""
    case OneProfession(p) => Or(Some(p.id), "")
    case ProfessionList(ps) => if |ps| == 0 then "" else Or(Some(ps[0].id), "")
  }

  const LoadFailed := "No se pudieron cargar los datos"

  /** `loadData`: a no-op without a user; an employee-query error leaves the
      form as it was; otherwise the form is filled and the professions list,
      when its query succeeds, replaces the old one. */
  function LoadData(s: Page, user: Option<Identity.User>, employee: Result<EmployeeRow, Thrown>,
                    professions: Result<Option<seq<Profession>>, Thrown>): (r: Page)
    ensures user.None? ==> r == s
    ensures user.Some? ==> !r.loading
    ensures user.Some? && employee.Failure? ==>
              r == s.(loading := false, error := Some(LoadFailed))
    ensures user.Some? && employee.Success? ==>
              && r.employeeName == Or(employee.value.name, "")
              && r.nationalId == Or(employee.value.nationalId, "")
              && r.selectedProfession == SelectedProfessionId(employee.value.professions)
              && r.email == Or(user.value.email, "")
              && r.error == (if professions.Success? then s.error else Some(LoadFailed))
              && r.professions == (if professions.Success? then professions.value.GetOr([]) else s.professions)
  {
    if user.None? then s
    else match employee
      case Failure(_) => s.(loading := false, error := Some(LoadFailed))
      case Success(row) =>
        var filled := s.(employeeName := Or(row.name, ""), nationalId := Or(row.nationalId, ""),
                         selectedProfession := SelectedProfessionId(row.professions),
                         email := Or(user.value.email, ""));
        match professions
        case Failure(_) => filled.(loading := false, error := Some(LoadFailed))
        case Success(ps) => filled.(loading := false, professions := ps.GetOr([]))
  }

  // ---------------------------------------------------------------------------
  // handleSaveProfile

  /** The `employees` update sent on save. */
  datatype ProfileUpdate = ProfileUpdate(name: string, nationalId: Option<string>, idProfession: Option<string>)

  /** Trimmed name; trimmed national id or null when blank; profession id or null when empty. */
  function ProfileUpdateOf(name: string, nationalId: string, profession: string): (u: ProfileUpdate)
    ensures u.name == Trim(name)
    ensures u.nationalId.None? <==> AllWhitespace(nationalId)
    ensures u.nationalId.Some? ==> u.nationalId.value == Trim(nationalId)
    ensures u.idProfession.None? <==> profession == ""
    ensures u.idProfession.Some? ==> u.idProfession.value == profession
  {
    TrimIsMaximalStrip(nationalId);
    ProfileUpdate(Trim(name), OrNull(Trim(nationalId)), OrNull(profession))
  }

  /** Saving what was saved sends the same update again: the normalisation is idempotent. */
  lemma ProfileUpdateIdempotent(name: string, nationalId: string, profession: string)
    ensures var u := ProfileUpdateOf(name, nationalId, profession);
            ProfileUpdateOf(u.name, u.nationalId.GetOr(""), u.idProfession.GetOr("")) == u
  {
    TrimIdempotent(name);
    TrimIdempotent(nationalId);
    assert Trim("") == "";
  }

  /** The save button is disabled while saving or while the trimmed name is empty. */
  predicate SaveDisabled(s: Page) {
    s.saving || Trim(s.employeeName) == ""
  }

  /** A blank name can never be saved, so a saved name is never empty. */
  lemma SavedNameNonEmpty(s: Page)
    requires !SaveDisabled(s)
    ensures ProfileUpdateOf(s.employeeName, s.nationalId, s.selectedProfession).name != ""
    ensures !AllWhitespace(s.employeeName)
  {
    TrimIsMaximalStrip(s.employeeName);
  }

  const SaveFailed := "No se pudo actualizar el perfil"
  const SaveDone := "Perfil actualizado correctamente"

  /** `handleSaveProfile` up to the reload: the update it sends and the
      message it leaves (the reload is a following `LoadData`). */
  function SaveProfile(s: Page, updateFails: bool): (r: (Page, ProfileUpdate))
    ensures r.1 == ProfileUpdateOf(s.employeeName, s.nationalId, s.selectedProfession)
    ensures !r.0.saving
    ensures updateFails ==> r.0.error == Some(SaveFailed) && r.0.success.None?
    ensures !updateFails ==> r.0.error.None? && r.0.success == Some(SaveDone)
  {
    var update := ProfileUpdateOf(s.employeeName, s.nationalId, s.selectedProfession);
    if updateFails then (s.(saving := false, error := Some(SaveFailed), success := None), update)
    else (s.(saving := false, error := None, success := Some(SaveDone)), update)
  }

  // ---------------------------------------------------------------------------
  // handleChangePassword

  const FieldsRequired := "Debes completar todos los campos de contraseña"
  const Mismatch := "Las contraseñas no coinciden"
  const TooShort := "La contraseña debe tener al menos 6 caracteres"
  const PasswordFallback := "No se pudo cambiar la contraseña"
  const PasswordDone := "Contraseña actualizada correctamente"
  const MinPasswordLength := 6

  /** `.length` of a JavaScript string: UTF-16 code units, two for a code
      point outside the Basic Multilingual Plane. */
  function Utf16Length(s: string): (n: nat)
    ensures |s| <= n <= 2 * |s|
    decreases |s|
  {
    if |s| == 0 then 0
    else (if s[0] as int > 0xFFFF then 2 else 1) + Utf16Length(s[1..])
  }

  /** The checks in source order; the first failure's message. */
  function PasswordProblem(newPassword: string, confirm: string): (r: Option<string>)
    ensures r.None? <==> newPassword != "" && newPassword == confirm && Utf16Length(newPassword) >= MinPasswordLength
    ensures newPassword == "" || confirm == "" ==> r == Some(FieldsRequired)
    ensures newPassword != "" && confirm != "" && newPassword != confirm ==> r == Some(Mismatch)
    ensures newPassword != "" && newPassword == confirm && Utf16Length(newPassword) < MinPasswordLength ==>
              r == Some(TooShort)
  {
    if newPassword == "" || confirm == "" then Some(FieldsRequired)
    else if newPassword != confirm then Some(Mismatch)
    else if Utf16Length(newPassword) < MinPasswordLength then Some(TooShort)
    else None
  }

  /** The password button is disabled while saving or while either field is empty. */
  predicate PasswordButtonDisabled(s: Page) {
    s.saving || s.newPassword == "" || s.confirmPassword == ""
  }

  /** The button guards only the first check: with it enabled the empty-field
      message cannot appear, but a mismatch or a short password still can. */
  lemma EnabledPasswordButton(s: Page)
    requires !PasswordButtonDisabled(s)
    ensures PasswordProblem(s.newPassword, s.confirmPassword) != Some(FieldsRequired)
    ensures PasswordProblem(s.newPassword, s.confirmPassword).Some? <==>
              s.newPassword != s.confirmPassword || Utf16Length(s.newPassword) < MinPasswordLength
  {
  }

  /** `updateUser` returned without error, or with one. */
  datatype UpdateReply = UpdateOk | UpdateFailed(err: Thrown)

  /** `handleChangePassword`: the state it leaves and the password it sends, if any. */
  function ChangePassword(s: Page, reply: UpdateReply): (r: (Page, Option<string>))
    ensures !r.0.saving
    ensures PasswordProblem(s.newPassword, s.confirmPassword).Some? ==>
              r.1.None? && r.0.error == PasswordProblem(s.newPassword, s.confirmPassword)
              && r.0.newPassword == s.newPassword && r.0.confirmPassword == s.confirmPassword
    ensures PasswordProblem(s.newPassword, s.confirmPassword).None? ==> r.1 == Some(s.newPassword)
    ensures r.0.success.Some? <==> PasswordProblem(s.newPassword, s.confirmPassword).None? && reply.UpdateOk?
    ensures r.0.success.Some? ==> r.0.newPassword == "" && r.0.confirmPassword == "" && r.0.error.None?
    ensures r.0.success.Some? ==> r.0.success == Some(PasswordDone)
    ensures PasswordProblem(s.newPassword, s.confirmPassword).None? && reply.UpdateFailed? ==>
              r.0.error == Some(MessageOf(reply.err, PasswordFallback))
              && r.0.newPassword == s.newPassword && r.0.confirmPassword == s.confirmPassword
  {
    var base := s.(saving := false, error := None, success := None);
    var problem := PasswordProblem(s.newPassword, s.confirmPassword);
    if problem.Some? then (base.(error := problem), None)
    else match reply
      case UpdateFailed(err) => (base.(error := Some(MessageOf(err, PasswordFallback))), Some(s.newPassword))
      case UpdateOk =>
        (base.(success := Some(PasswordDone), newPassword := "", confirmPassword := ""), Some(s.newPassword))
  }

  /** A password is only ever sent when both fields agree and it is at least
      six UTF-16 units long. */
  lemma SentPasswordIsValid(s: Page, reply: UpdateReply)
    requires ChangePassword(s, reply).1.Some?
    ensures var p := ChangePassword(s, reply).1.value;
            p == s.newPassword && p == s.confirmPassword && |p| >= 3 && Utf16Length(p) >= 6
  {
  }

  // ---------------------------------------------------------------------------
  // handleAddProfession

  const ProfessionRequired := "El nombre de la profesión es requerido"
  const ProfessionFallback := "No se pudo crear la profesión"
  const ProfessionDone := "Profesión creada correctamente"

  /** The insert returned the created row, or an error. */
  datatype InsertReply = InsertedRow(row: Profession) | InsertFailed(err: Thrown)

  /** `handleAddProfession`: the state it leaves and the name it inserts, if any. */
  function AddProfession(s: Page, reply: InsertReply): (r: (Page, Option<string>))
    ensures !r.0.adding
    ensures AllWhitespace(s.newProfessionName) ==>
              r.1.None? && r.0.addError == Some(ProfessionRequired) && r.0.professions == s.professions
    ensures r.1.Some? ==> r.1.value == Trim(s.newProfessionName) && r.1.value != ""
    ensures !AllWhitespace(s.newProfessionName) && reply.InsertedRow? ==>
              && r.0.professions == s.professions + [reply.row]
              && r.0.selectedProfession == reply.row.id
              && !r.0.addModalOpen && r.0.newProfessionName == "" && r.0.success == Some(ProfessionDone)
    ensures !AllWhitespace(s.newProfessionName) && reply.InsertFailed? ==>
              r.0.professions == s.professions && r.0.selectedProfession == s.selectedProfession
              && r.0.addError == Some(MessageOf(reply.err, ProfessionFallback))
  {
    TrimIsMaximalStrip(s.newProfessionName);
    var base := s.(adding := false, addError := None);
    var name := Trim(s.newProfessionName);
    if name == "" then (base.(addError := Some(ProfessionRequired)), None)
    else match reply
      case InsertFailed(err) => (base.(addError := Some(MessageOf(err, ProfessionFallback))), Some(name))
      case InsertedRow(row) =>
        (base.(professions := s.professions + [row], selectedProfession := row.id, addModalOpen := false,
               newProfessionName := "", success := Some(ProfessionDone)), Some(name))
  }

  /** The modal's create button is disabled while adding or while the trimmed name is empty. */
  predicate AddButtonDisabled(s: Page) {
    s.adding || Trim(s.newProfessionName) == ""
  }

  /** With the create button enabled the name is sent, trimmed and non-empty. */
  lemma EnabledAddButtonSends(s: Page, reply: InsertReply)
    requires !AddButtonDisabled(s)
    ensures AddProfession(s, reply).1 == Some(Trim(s.newProfessionName))
  {
    TrimIsMaximalStrip(s.newProfessionName);
  }

  /** Adding a profession keeps the existing ones in order and makes the new
      one the selected profession. */
  lemma AddedProfessionSelected(s: Page, row: Profession)
    requires !AllWhitespace(s.newProfessionName)
    ensures var r := AddProfession(s, InsertedRow(row)).0;
            r.professions[..|s.professions|] == s.professions
            && r.professions[|r.professions| - 1].id == r.selectedProfession
  {
  }
}
