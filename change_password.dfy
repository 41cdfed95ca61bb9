/** The older client's change-password dialog: a chain of checks on the
    form, the first failure reported, then one update of the password. */
module ChangePassword {
  import opened Util
  import opened ListOps
  import opened ClientTypes

  const WrongOldPassword := "L'ancien mot de passe est incorrect"
  const TooShort := "Le nouveau mot de passe doit contenir au moins 4 caractères"
  const Mismatch := "Les nouveaux mots de passe ne correspondent pas"

  /** What `handleSubmit` does: nothing without a session user, an error
      message, or `updateUser(id, { password })`. */
  datatype Outcome =
    | NoUser
    | Rejected(error: string)
    | Changed(userId: string, newPassword: string)

  /** `handleSubmit` for the logged-in `user` and the three fields. */
  function HandleSubmit(user: Option<User>, oldPassword: string, newPassword: string, confirmPassword: string): (r: Outcome)
    ensures r.NoUser? <==> user.None?
    ensures r.Changed? <==>
              user.Some? && user.value.password == Some(oldPassword) && |newPassword| >= 4 && newPassword == confirmPassword
    ensures r.Changed? ==> r.userId == user.value.id && r.newPassword == newPassword
    ensures r == Rejected(WrongOldPassword) <==> user.Some? && user.value.password != Some(oldPassword)
    ensures r == Rejected(TooShort) <==>
              user.Some? && user.value.password == Some(oldPassword) && |newPassword| < 4
    ensures r == Rejected(Mismatch) <==>
              user.Some? && user.value.password == Some(oldPassword) && |newPassword| >= 4 && newPassword != confirmPassword
  {
    if user.None? then NoUser
    else if user.value.password != Some(oldPassword) then Rejected(WrongOldPassword)
    else if |newPassword| < 4 then Rejected(TooShort)
    else if newPassword != confirmPassword then Rejected(Mismatch)
    else Changed(user.value.id, newPassword)
  }

  function IdIs(id: string): User -> bool {
    (u: User) => u.id == id
  }

  function WithPassword(p: string): User -> User {
    (u: User) => u.(password := Some(p))
  }

  /** `updateUser(id, { password })`: only that user's password changes. */
  function ApplyOutcome(users: seq<User>, r: Outcome): (after: seq<User>)
    ensures |after| == |users|
    ensures !r.Changed? ==> after == users
    ensures r.Changed? ==> forall i :: 0 <= i < |users| ==>
              if users[i].id == r.userId then after[i] == users[i].(password := Some(r.newPassword))
              else after[i] == users[i]
  {
    if r.Changed? then MapWhere(users, IdIs(r.userId), WithPassword(r.newPassword)) else users
  }

  /** After a change the new password is the one that opens the dialog
      again: the form repeated as it was is refused unless old and new
      coincide, and a form starting from the new password is accepted. */
  lemma ChangeTakesEffect(user: User, oldPassword: string, newPassword: string, next: string)
    requires HandleSubmit(Some(user), oldPassword, newPassword, newPassword).Changed?
    requires |next| >= 4
    ensures var updated := user.(password := Some(newPassword));
            (HandleSubmit(Some(updated), oldPassword, newPassword, newPassword).Changed? <==> oldPassword == newPassword)
            && HandleSubmit(Some(updated), newPassword, next, next) == Changed(user.id, next)
  {
  }

  /** The checks run in order: a wrong old password is reported whatever
      the new fields hold, and a short new password whatever the
      confirmation holds. */
  lemma FirstFailureReported(user: User, oldPassword: string, newPassword: string, confirmPassword: string,
                             newPassword2: string, confirmPassword2: string)
    ensures user.password != Some(oldPassword) ==>
              HandleSubmit(Some(user), oldPassword, newPassword, confirmPassword)
              == HandleSubmit(Some(user), oldPassword, newPassword2, confirmPassword2)
    ensures |newPassword| < 4 ==>
              HandleSubmit(Some(user), oldPassword, newPassword, confirmPassword)
              == HandleSubmit(Some(user), oldPassword, newPassword, confirmPassword2)
  {
  }
}
