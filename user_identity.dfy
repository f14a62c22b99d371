/**
 * The anonymous user identity kept in local storage: a user id created on
 * first visit and a flag recording that the welcome message was shown.
 */
module UserIdentity {
  import opened Wrappers
  import opened JsBuiltins
  import opened Storage

  const UserIdKey: string := "popeUserId"
  const WelcomeShownKey: string := "popeWelcomeShown"

  /**
   * Get-or-create: a stored truthy id is returned and storage is left alone;
   * otherwise the new id (from `crypto.randomUUID`) is stored and returned.
   */
  method GetUserId(storage: LocalStorage, newId: string) returns (userId: string)
    modifies storage
    ensures Truthy(old(storage.GetItem(UserIdKey))) ==>
      userId == old(storage.items[UserIdKey]) && storage.items == old(storage.items)
    ensures !Truthy(old(storage.GetItem(UserIdKey))) ==>
      userId == newId && storage.items == old(storage.items)[UserIdKey := newId]
  {
    var stored := storage.GetItem(UserIdKey);
    if Truthy(stored) {
      userId := stored.value;
    } else {
      userId := newId;
      storage.SetItem(UserIdKey, newId);
    }
  }

  /** Once a non-empty id has been handed out, every later call returns that id and writes nothing. */
  method GetUserIdTwice(storage: LocalStorage, newId1: string, newId2: string) returns (first: string, second: string)
    requires newId1 != ""
    modifies storage
    ensures first == second
    ensures storage.items == old(storage.items)[UserIdKey := first]
  {
    first := GetUserId(storage, newId1);
    second := GetUserId(storage, newId2);
  }

  /** What the identity hook reports. */
  datatype Identity = Identity(userId: string, isNewUser: bool, welcomeShown: bool)

  /**
   * The hook's initialisation: an existing user keeps their id and sees the
   * welcome flag exactly when it is stored as 'true'; a new user gets the
   * fresh id, is marked new, and has not seen the welcome whatever is stored.
   */
  method InitIdentity(storage: LocalStorage, newId: string) returns (id: Identity)
    modifies storage
    ensures Truthy(old(storage.GetItem(UserIdKey))) ==>
      && id == Identity(old(storage.items[UserIdKey]), false, old(storage.GetItem(WelcomeShownKey)) == Some("true"))
      && storage.items == old(storage.items)
    ensures !Truthy(old(storage.GetItem(UserIdKey))) ==>
      && id == Identity(newId, true, false)
      && storage.items == old(storage.items)[UserIdKey := newId]
  {
    var isNewUser := !Truthy(storage.GetItem(UserIdKey));
    var welcomeShown := storage.GetItem(WelcomeShownKey) == Some("true");
    var userId := GetUserId(storage, newId);
    if isNewUser {
      welcomeShown := false;
    }
    id := Identity(userId, isNewUser, welcomeShown);
  }

  /** Initialising twice yields the same user, who is no longer new. */
  method InitIdentityTwice(storage: LocalStorage, newId1: string, newId2: string) returns (first: Identity, second: Identity)
    requires newId1 != ""
    modifies storage
    ensures first.userId == second.userId && !second.isNewUser
  {
    first := InitIdentity(storage, newId1);
    second := InitIdentity(storage, newId2);
  }

  /** `markWelcomeAsShown`: sets only the welcome flag, to 'true'. */
  method MarkWelcomeAsShown(storage: LocalStorage)
    modifies storage
    ensures storage.items == old(storage.items)[WelcomeShownKey := "true"]
  {
    storage.SetItem(WelcomeShownKey, "true");
  }

  /** `clearWelcomeFlag`: removes only the welcome flag. */
  method ClearWelcomeFlag(storage: LocalStorage)
    modifies storage
    ensures storage.items == old(storage.items) - {WelcomeShownKey}
  {
    storage.RemoveItem(WelcomeShownKey);
  }

  /** After marking, an existing user's next initialisation reports the welcome as shown. */
  method MarkThenInit(storage: LocalStorage, newId: string) returns (id: Identity)
    requires Truthy(storage.GetItem(UserIdKey))
    modifies storage
    ensures id.welcomeShown && !id.isNewUser
  {
    MarkWelcomeAsShown(storage);
    id := InitIdentity(storage, newId);
  }
}
