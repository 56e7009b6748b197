/** The password-change dialog of project/components/ui/settings-modal.tsx:
    its schema and the reset-on-submit / reset-on-close behaviour. */
module Settings {
  import opened Validation
  import UiStore

  const PasswordUpdatedMessage: string := "Your password has been successfully updated."
  const ShortCurrentPassword: string := "Current password must be at least 6 characters"
  const ShortNewPassword: string := "New password must be at least 6 characters"
  const NoConfirmation: string := "Please confirm your new password"

  datatype SettingsForm = SettingsForm(currentPassword: string, newPassword: string, confirmPassword: string)

  /** The field values after react-hook-form's `reset()` with no defaults. */
  const EmptyForm: SettingsForm := SettingsForm("", "", "")

  const NewPasswordMismatch: string := "New passwords don't match"

  /** The condition `settingsSchema` enforces: three lengths and one equality. */
  predicate Acceptable(f: SettingsForm) {
    |f.currentPassword| >= 6 && |f.newPassword| >= 6 && |f.confirmPassword| >= 6 && f.newPassword == f.confirmPassword
  }

  function SettingsIssues(f: SettingsForm): (issues: seq<Issue>)
    ensures issues == [] <==> Acceptable(f)
    ensures Issue("confirmPassword", NewPasswordMismatch) in issues <==> f.newPassword != f.confirmPassword
  {
    MinLength("currentPassword", f.currentPassword, 6, ShortCurrentPassword)
    + MinLength("newPassword", f.newPassword, 6, ShortNewPassword)
    + MinLength("confirmPassword", f.confirmPassword, 6, NoConfirmation)
    + (if f.newPassword == f.confirmPassword then [] else [Issue("confirmPassword", NewPasswordMismatch)])
  }

  /** The current password is only length-checked: replacing it by any other
      string of at least six characters never changes the verdict. */
  lemma {:induction false} CurrentPasswordNotCompared(f: SettingsForm, other: string)
    requires |f.currentPassword| >= 6 && |other| >= 6
    ensures SettingsIssues(f.(currentPassword := other)) == SettingsIssues(f)
  {
    assert MinLength("currentPassword", other, 6, ShortCurrentPassword) == [];
    assert MinLength("currentPassword", f.currentPassword, 6, ShortCurrentPassword) == [];
  }

  /** The dialog: the typed values, and the `isOpen` flag its parent holds
      (which `onClose` clears). */
  class SettingsModal {
    var values: SettingsForm
    var isOpen: bool

    constructor ()
      ensures values == EmptyForm && !isOpen
    {
      values := EmptyForm;
      isOpen := false;
    }

    /** The parent sets the `isOpen` prop: the dialog shows with the fields
        as they were left. */
    method Open()
      modifies this`isOpen
      ensures isOpen && values == old(values)
    {
      isOpen := true;
    }

    method Edit(f: SettingsForm)
      modifies this`values
      ensures values == f
    {
      values := f;
    }

    /** `handleSubmit(onSubmit)`: the schema runs first; only an accepted form
        resets the fields, closes the dialog and posts a notification. */
    method Submit(store: UiStore.UIStore, noteId: string, now: string) returns (issues: seq<Issue>)
      requires store.Valid()
      modifies this, store`notifications
      ensures store.Valid()
      ensures issues == SettingsIssues(old(values))
      ensures issues == [] ==> values == EmptyForm && !isOpen
      ensures issues == [] ==> store.notifications == UiStore.WithNotification(old(store.notifications),
        UiStore.Notification(noteId, "Password Updated", PasswordUpdatedMessage, UiStore.Success, now))
      ensures issues != [] ==> values == old(values) && isOpen == old(isOpen) && store.notifications == old(store.notifications)
    {
      issues := SettingsIssues(values);
      if issues == [] {
        values := EmptyForm;
        isOpen := false;
        store.AddNotification("Password Updated", PasswordUpdatedMessage, UiStore.Success, noteId, now);
      }
    }

    /** `handleClose`: reset and close, whatever was typed. */
    method Close()
      modifies this
      ensures values == EmptyForm && !isOpen
    {
      values := EmptyForm;
      isOpen := false;
    }
  }
}
