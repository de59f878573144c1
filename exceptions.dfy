/**
 * The exception hierarchy of the launcher and `DisabledLauncherException.getLocalizedMessage`,
 * which turns an exception into the text shown to the user.
 */
module Exceptions {
  import opened Wrappers

  /** The string resources the core uses (`R.string.<id>`); their localised text is not modelled. */
  datatype StringRes =
    | ShizukuDenied
    | ShizukuUnavailable
    | ShizukuUnsupportedVersion
    | ProcessFailure
    | CantOpenApp
    | EnabledApp
    | DisabledApp
    | NothingToDisable
    | CouldntLoadAppList
    | IntentExtrasIncorrect
    | IntentActionIncorrect
    | NoAppsSelected
    | UnknownApp
    | AppNotFound

  /** A user-visible text: a resource, or a resource format string applied to one argument. */
  datatype Message = Resource(id: StringRes) | Formatted(id: StringRes, arg: string)

  /**
   * The throwables the core raises or catches. The three Shizuku exceptions are
   * `ShizukuException`s, which are `DisabledLauncherException`s; `RedirectedToGooglePlayException`
   * wraps the failure it replaces; `IllegalStateException` is what the broker library throws, and
   * `ActivityNotFoundException` what `startActivity` throws when no activity handles the intent.
   */
  datatype Throwable =
    | NoShizukuPermissionException
    | ShizukuUnavailableException
    | ShizukuVersionNotSupportedException
    | DisabledLauncherException(message: Option<Message>, cause: Option<Throwable>)
    | RedirectedToGooglePlayException(wrapped: Throwable)
    | IllegalStateException
    | ActivityNotFoundException

  predicate IsShizukuException(e: Throwable) {
    e.NoShizukuPermissionException? || e.ShizukuUnavailableException? || e.ShizukuVersionNotSupportedException?
  }

  /** Whether a `catch (e: DisabledLauncherException)` catches `e`. */
  predicate IsDisabledLauncherException(e: Throwable) {
    !e.IllegalStateException? && !e.ActivityNotFoundException?
  }

  /** The message a throwable was constructed with (`Throwable.message`). */
  function MessageOf(e: Throwable): Option<Message> {
    match e
    case NoShizukuPermissionException => Some(Resource(ShizukuDenied))
    case ShizukuUnavailableException => Some(Resource(ShizukuUnavailable))
    case ShizukuVersionNotSupportedException => Some(Resource(ShizukuUnsupportedVersion))
    case DisabledLauncherException(m, _) => m
    case RedirectedToGooglePlayException(_) => None
    case IllegalStateException => None
    case ActivityNotFoundException => None
  }

  /** The direct cause of a throwable (`Throwable.cause`). */
  function CauseOf(e: Throwable): Option<Throwable> {
    match e
    case DisabledLauncherException(_, c) => c
    case RedirectedToGooglePlayException(w) => Some(w)
    case _ => None
  }

  /** The fixed resource of each Shizuku exception. */
  function ShizukuResource(e: Throwable): StringRes
    requires IsShizukuException(e)
  {
    match e
    case NoShizukuPermissionException => ShizukuDenied
    case ShizukuUnavailableException => ShizukuUnavailable
    case ShizukuVersionNotSupportedException => ShizukuUnsupportedVersion
  }

  /** The local `getMessage`: a text for the three Shizuku exception types, null for anything else. */
  function TypeMessage(e: Option<Throwable>): (m: Option<Message>)
    ensures m.Some? <==> e.Some? && IsShizukuException(e.value)
  {
    match e
    case Some(NoShizukuPermissionException) => Some(Resource(ShizukuDenied))
    case Some(ShizukuUnavailableException) => Some(Resource(ShizukuUnavailable))
    case Some(ShizukuVersionNotSupportedException) => Some(Resource(ShizukuUnsupportedVersion))
    case _ => None
  }

  /** `getMessage(this) ?: getMessage(cause) ?: message`. */
  function GetLocalizedMessage(e: Throwable): (r: Option<Message>)
    requires IsDisabledLauncherException(e)
    ensures IsShizukuException(e) ==> r == Some(Resource(ShizukuResource(e)))
    ensures !IsShizukuException(e) && CauseOf(e).Some? && IsShizukuException(CauseOf(e).value) ==>
              r == Some(Resource(ShizukuResource(CauseOf(e).value)))
    ensures !IsShizukuException(e) && !(CauseOf(e).Some? && IsShizukuException(CauseOf(e).value)) ==>
              r == MessageOf(e)
  {
    var own := TypeMessage(Some(e));
    if own.Some? then own
    else
      var fromCause := TypeMessage(CauseOf(e));
      if fromCause.Some? then fromCause else MessageOf(e)
  }

  /** Only the direct cause is consulted: a Shizuku exception two levels down is never seen. */
  lemma OnlyDirectCauseExamined(m: Option<Message>, m2: Option<Message>, deep: Throwable)
    ensures GetLocalizedMessage(DisabledLauncherException(m, Some(DisabledLauncherException(m2, Some(deep))))) == m
  {
  }

  /** An exception built from a cause alone has no message of its own: the text comes from the cause or is null. */
  lemma CauseOnlyConstructor(c: Throwable)
    ensures GetLocalizedMessage(DisabledLauncherException(None, Some(c))).Some? <==> IsShizukuException(c)
  {
  }

  /** A store redirect shows the Shizuku text of the failure it replaced, and nothing for any other failure. */
  lemma RedirectMessage(e: Throwable)
    ensures GetLocalizedMessage(RedirectedToGooglePlayException(e)) == TypeMessage(Some(e))
  {
  }
}
