/** The User aggregate of the user service: an Active/Suspended status, a
    User/Admin role, validated profile fields, and the domain events raised by each
    guarded operation until the repository clears them.

    Every reading of DateTime.UtcNow is its own input, and no order between the
    readings is assumed:
    - Register reads the clock once for RegisteredAt and again for UpdatedAt;
    - every other operation reads it once for the field it stamps (`now`);
    - every raised event reads it once more for its OccurredOn (`eventAt`), in
      DomainEventBase's initialiser, and draws one fresh Guid (`eventId`). */
module Users {
  import opened Base
  import opened UserValueObjects

  /** UserStatus; the enum's declaration is not part of this model, only the two
      members the aggregate uses. */
  datatype UserStatus = Active | Suspended

  datatype UserRole = User | Admin {
    function ToString(): string {
      match this
      case User => "User"
      case Admin => "Admin"
    }
  }

  /** The five event records; every payload begins with the user's id. */
  datatype EventBody =
    | UserRegisteredEvent(userId: string, email: string, fullName: string, role: string, registeredAt: Time)
    | UserProfileUpdatedEvent(userId: string, newFullName: Option<string>, newPhoneNumber: Option<string>, updatedAt: Time)
    | UserPasswordChangedEvent(userId: string, changedAt: Time)
    | UserRoleChangedEvent(userId: string, newRole: string, changedAt: Time)
    | UserSuspendedEvent(userId: string, reason: string, suspendedAt: Time)
  {
    /** GetType().Name, as the repository records it in the outbox. */
    function TypeName(): string {
      match this
      case UserRegisteredEvent(_, _, _, _, _) => "UserRegisteredEvent"
      case UserProfileUpdatedEvent(_, _, _, _) => "UserProfileUpdatedEvent"
      case UserPasswordChangedEvent(_, _) => "UserPasswordChangedEvent"
      case UserRoleChangedEvent(_, _, _) => "UserRoleChangedEvent"
      case UserSuspendedEvent(_, _, _) => "UserSuspendedEvent"
    }
  }

  /** DomainEventBase: EventId and OccurredOn, then the record's own payload. */
  datatype UserEvent = UserEvent(eventId: Guid, occurredOn: Time, body: EventBody)

  datatype UserData = UserData(
    id: UserId, email: Email, fullName: FullName, password: Password, role: UserRole,
    phoneNumber: Option<PhoneNumber>, preferences: UserPreferences, status: UserStatus,
    registeredAt: Time, updatedAt: Time, lastLoginAt: Option<Time>, events: seq<UserEvent>)

  /** The result of an operation that may throw after it has already changed some
      fields: the state it leaves behind, and whether it threw. */
  datatype Attempt = Attempt(after: UserData, outcome: Outcome<Failure>)

  /** User.Register. The object initialiser builds the value objects in the order
      Email, FullName, Password, PhoneNumber, so the first invalid one is reported;
      `id` is UserId.Create(). */
  function RegisterStep(
    email: string, fullName: string, hashedPassword: string, phoneNumber: Option<string>, role: UserRole,
    id: UserId, eventId: Guid, registeredAt: Time, updatedAt: Time, eventAt: Time): (r: Result<UserData, Failure>)
    ensures r.Success? <==>
      EmailFrom(email).Success? && FullNameFrom(fullName).Success?
      && PasswordFromHash(hashedPassword).Success? && PhoneFromOptional(phoneNumber).Success?
    ensures EmailFrom(email).Failure? ==> r == Failure(EmailFrom(email).error)
    ensures EmailFrom(email).Success? && FullNameFrom(fullName).Failure? ==> r == Failure(FullNameFrom(fullName).error)
    ensures r.Success? ==>
      var u := r.value;
      u.id == id && u.email == EmailFrom(email).value && u.fullName == FullNameFrom(fullName).value
      && u.password == Password(hashedPassword) && u.role == role
      && u.phoneNumber == PhoneFromOptional(phoneNumber).value
      && u.preferences == DefaultPreferences() && u.status.Active?
      && u.registeredAt == registeredAt && u.updatedAt == updatedAt && u.lastLoginAt == None
      && u.events == [UserEvent(eventId, eventAt,
           UserRegisteredEvent(id.value, u.email.value, u.fullName.value, role.ToString(), registeredAt))]
  {
    var e :- EmailFrom(email);
    var n :- FullNameFrom(fullName);
    var p :- PasswordFromHash(hashedPassword);
    var ph :- PhoneFromOptional(phoneNumber);
    Success(UserData(id, e, n, p, role, ph, DefaultPreferences(), Active, registeredAt, updatedAt, None,
      [UserEvent(eventId, eventAt, UserRegisteredEvent(id.value, e.value, n.value, role.ToString(), registeredAt))]))
  }

  /** The step of UpdateProfile that sets the name, if one is given. */
  function SetFullName(d: UserData, fullName: Option<string>): Result<UserData, Failure> {
    if fullName.None? then Success(d)
    else
      var n :- FullNameFrom(fullName.value);
      Success(d.(fullName := n))
  }

  /** The step of UpdateProfile that sets the phone number, if one is given; a
      blank one clears it. */
  function SetPhoneNumber(d: UserData, phoneNumber: Option<string>): Result<UserData, Failure> {
    if phoneNumber.None? then Success(d)
    else
      var p :- PhoneFromOptional(phoneNumber);
      Success(d.(phoneNumber := p))
  }

  /** UpdateProfile. The fields are applied one after the other, so a phone number
      that fails validation throws after the new name has been stored; only when
      every given field is applied are UpdatedAt and the event written. */
  function UpdateProfileStep(
    d: UserData, fullName: Option<string>, phoneNumber: Option<string>, preferences: Option<UserPreferences>,
    eventId: Guid, now: Time, eventAt: Time): (r: Attempt)
    ensures d.status.Suspended? ==>
      r == Attempt(d, Fail(InvalidOperation("Cannot update profile of suspended user")))
    ensures d.status.Active? && fullName.None? && phoneNumber.None? && preferences.None? ==> r == Attempt(d, Pass)
    ensures r.outcome.Pass? <==>
      d.status.Active?
      && (fullName.Some? ==> FullNameFrom(fullName.value).Success?)
      && (phoneNumber.Some? ==> PhoneFromOptional(phoneNumber).Success?)
    ensures r.outcome.Pass? && (fullName.Some? || phoneNumber.Some? || preferences.Some?) ==>
      r.after.events == d.events + [UserEvent(eventId, eventAt, UserProfileUpdatedEvent(d.id.value, fullName, phoneNumber, now))]
      && r.after.updatedAt == now
      && r.after.fullName == (if fullName.Some? then FullNameFrom(fullName.value).value else d.fullName)
      && r.after.phoneNumber == (if phoneNumber.Some? then PhoneFromOptional(phoneNumber).value else d.phoneNumber)
      && r.after.preferences == (if preferences.Some? then preferences.value else d.preferences)
    ensures r.outcome.Fail? ==>
      r.after.events == d.events && r.after.updatedAt == d.updatedAt
      && r.after.phoneNumber == d.phoneNumber && r.after.preferences == d.preferences
    ensures r.after.(fullName := d.fullName, phoneNumber := d.phoneNumber, preferences := d.preferences,
                     updatedAt := d.updatedAt, events := d.events) == d
  {
    if d.status.Suspended? then Attempt(d, Fail(InvalidOperation("Cannot update profile of suspended user")))
    else
      match SetFullName(d, fullName)
      case Failure(e) => Attempt(d, Fail(e))
      case Success(d1) =>
        match SetPhoneNumber(d1, phoneNumber)
        case Failure(e) => Attempt(d1, Fail(e))
        case Success(d2) =>
          var d3 := if preferences.Some? then d2.(preferences := preferences.value) else d2;
          if fullName.None? && phoneNumber.None? && preferences.None? then Attempt(d3, Pass)
          else Attempt(d3.(updatedAt := now, events := d3.events +
                 [UserEvent(eventId, eventAt, UserProfileUpdatedEvent(d.id.value, fullName, phoneNumber, now))]), Pass)
  }

  /** ChangePassword: refused for a suspended user; the new hash is stored verbatim. */
  function ChangePasswordStep(d: UserData, newHashedPassword: string, eventId: Guid, now: Time, eventAt: Time): (r: Result<UserData, Failure>)
    ensures d.status.Suspended? ==> r == Failure(InvalidOperation("Cannot change password of suspended user"))
    ensures r.Success? <==> d.status.Active? && PasswordFromHash(newHashedPassword).Success?
    ensures r.Success? ==>
      r.value == d.(password := Password(newHashedPassword), updatedAt := now,
                    events := d.events + [UserEvent(eventId, eventAt, UserPasswordChangedEvent(d.id.value, now))])
  {
    if d.status.Suspended? then Failure(InvalidOperation("Cannot change password of suspended user"))
    else
      var p :- PasswordFromHash(newHashedPassword);
      Success(d.(password := p, updatedAt := now,
                 events := d.events + [UserEvent(eventId, eventAt, UserPasswordChangedEvent(d.id.value, now))]))
  }

  /** PromoteToAdmin: refused for an admin; the status is not consulted. */
  function PromoteToAdminStep(d: UserData, eventId: Guid, now: Time, eventAt: Time): (r: Result<UserData, Failure>)
    ensures r.Success? <==> d.role.User?
    ensures r.Failure? ==> r.error == InvalidOperation("User is already an admin")
    ensures r.Success? ==>
      r.value == d.(role := Admin, updatedAt := now,
                    events := d.events + [UserEvent(eventId, eventAt, UserRoleChangedEvent(d.id.value, "Admin", now))])
  {
    if d.role.Admin? then Failure(InvalidOperation("User is already an admin"))
    else Success(d.(role := Admin, updatedAt := now,
                    events := d.events + [UserEvent(eventId, eventAt, UserRoleChangedEvent(d.id.value, Admin.ToString(), now))]))
  }

  /** Suspend: refused for a suspended user; the event carries the reason. */
  function SuspendStep(d: UserData, reason: string, eventId: Guid, now: Time, eventAt: Time): (r: Result<UserData, Failure>)
    ensures r.Success? <==> d.status.Active?
    ensures r.Failure? ==> r.error == InvalidOperation("User is already suspended")
    ensures r.Success? ==>
      r.value == d.(status := Suspended, updatedAt := now,
                    events := d.events + [UserEvent(eventId, eventAt, UserSuspendedEvent(d.id.value, reason, now))])
  {
    if d.status.Suspended? then Failure(InvalidOperation("User is already suspended"))
    else Success(d.(status := Suspended, updatedAt := now,
                    events := d.events + [UserEvent(eventId, eventAt, UserSuspendedEvent(d.id.value, reason, now))]))
  }

  /** Activate: refused for an active user; raises no event. */
  function ActivateStep(d: UserData, now: Time): (r: Result<UserData, Failure>)
    ensures r.Success? <==> d.status.Suspended?
    ensures r.Failure? ==> r.error == InvalidOperation("User is already active")
    ensures r.Success? ==> r.value == d.(status := Active, updatedAt := now)
  {
    if d.status.Active? then Failure(InvalidOperation("User is already active"))
    else Success(d.(status := Active, updatedAt := now))
  }

  /** Suspending and then re-activating restores the status and raises exactly the
      suspension event. */
  lemma SuspendActivateRoundTrip(d: UserData, reason: string, eventId: Guid, t1: Time, e1: Time, t2: Time)
    requires d.status.Active?
    ensures SuspendStep(d, reason, eventId, t1, e1).Success?
    ensures var s := SuspendStep(d, reason, eventId, t1, e1).value;
      ActivateStep(s, t2).Success?
      && ActivateStep(s, t2).value == d.(updatedAt := t2, events := s.events)
      && |s.events| == |d.events| + 1
  {
  }

  /** A suspended user can neither edit the profile nor change the password, and
      the refusal leaves every field as it was; promotion is still allowed. */
  lemma SuspendedUserIsFrozen(
    d: UserData, fullName: Option<string>, phoneNumber: Option<string>, preferences: Option<UserPreferences>,
    hash: string, eventId: Guid, now: Time, eventAt: Time)
    requires d.status.Suspended?
    ensures UpdateProfileStep(d, fullName, phoneNumber, preferences, eventId, now, eventAt).after == d
    ensures UpdateProfileStep(d, fullName, phoneNumber, preferences, eventId, now, eventAt).outcome.Fail?
    ensures ChangePasswordStep(d, hash, eventId, now, eventAt).Failure?
    ensures d.role.User? ==> PromoteToAdminStep(d, eventId, now, eventAt).Success?
  {
  }

  /** An invalid phone number is reported after a valid new name has already been
      stored; no event is raised and UpdatedAt keeps its old value. */
  lemma UpdateProfileIsNotAtomic(d: UserData, name: string, phone: string, eventId: Guid, now: Time, eventAt: Time)
    requires d.status.Active?
    requires FullNameFrom(name).Success? && PhoneFromOptional(Some(phone)).Failure?
    ensures var r := UpdateProfileStep(d, Some(name), Some(phone), None, eventId, now, eventAt);
      r.outcome.Fail? && r.after.fullName == FullNameFrom(name).value
      && r.after.events == d.events && r.after.updatedAt == d.updatedAt
  {
  }

  /** A blank phone number is not an error: it clears the stored one. */
  lemma BlankPhoneClears(d: UserData, blank: string, eventId: Guid, now: Time, eventAt: Time)
    requires d.status.Active? && Text.IsBlank(blank)
    ensures var r := UpdateProfileStep(d, None, Some(blank), None, eventId, now, eventAt);
      r.outcome.Pass? && r.after.phoneNumber == None && |r.after.events| == |d.events| + 1
  {
  }

  // ---------------------------------------------------------------- sequences of calls

  /** The calls a command handler can make on a loaded user. */
  datatype Command =
    | DoUpdateProfile(fullName: Option<string>, phoneNumber: Option<string>, preferences: Option<UserPreferences>,
                      eventId: Guid, now: Time, eventAt: Time)
    | DoChangePassword(hash: string, eventId: Guid, now: Time, eventAt: Time)
    | DoPromoteToAdmin(eventId: Guid, now: Time, eventAt: Time)
    | DoRecordLogin(now: Time)
    | DoSuspend(reason: string, eventId: Guid, now: Time, eventAt: Time)
    | DoActivate(now: Time)
    | DoClearDomainEvents

  function OrKeep(d: UserData, r: Result<UserData, Failure>): UserData {
    if r.Success? then r.value else d
  }

  /** One call; whatever it throws, the state it leaves behind is kept. */
  function Apply(d: UserData, c: Command): UserData {
    match c
    case DoUpdateProfile(n, p, prefs, e, t, et) => UpdateProfileStep(d, n, p, prefs, e, t, et).after
    case DoChangePassword(h, e, t, et) => OrKeep(d, ChangePasswordStep(d, h, e, t, et))
    case DoPromoteToAdmin(e, t, et) => OrKeep(d, PromoteToAdminStep(d, e, t, et))
    case DoRecordLogin(t) => d.(lastLoginAt := Some(t))
    case DoSuspend(reason, e, t, et) => OrKeep(d, SuspendStep(d, reason, e, t, et))
    case DoActivate(t) => OrKeep(d, ActivateStep(d, t))
    case DoClearDomainEvents => d.(events := [])
  }

  function Run(d: UserData, cs: seq<Command>): UserData
    decreases |cs|
  {
    if cs == [] then d else Run(Apply(d, cs[0]), cs[1..])
  }

  /** Every pending event is about this user. */
  predicate EventsAboutUser(d: UserData) {
    forall i :: 0 <= i < |d.events| ==> d.events[i].body.userId == d.id.value
  }

  /** One call keeps the id, e-mail and registration time, never demotes an admin,
      and only appends events about the user (or clears them all). */
  lemma ApplyKeepsIdentity(d: UserData, c: Command)
    requires EventsAboutUser(d)
    ensures var u := Apply(d, c);
      u.id == d.id && u.email == d.email && u.registeredAt == d.registeredAt
      && (d.role.Admin? ==> u.role.Admin?) && EventsAboutUser(u)
  {
    var u := Apply(d, c);
    if u.events != [] && u.events != d.events {
      assert u.events[..|d.events|] == d.events;
      forall i | 0 <= i < |u.events| ensures u.events[i].body.userId == u.id.value {
        if i < |d.events| { assert u.events[i] == d.events[i]; }
      }
    }
  }

  /** Over any sequence of calls the id, e-mail and registration time stay fixed,
      an admin is never demoted, and every pending event names the user. */
  lemma {:induction false} RunKeepsIdentity(d: UserData, cs: seq<Command>)
    requires EventsAboutUser(d)
    ensures var u := Run(d, cs);
      u.id == d.id && u.email == d.email && u.registeredAt == d.registeredAt
      && (d.role.Admin? ==> u.role.Admin?) && EventsAboutUser(u)
    decreases |cs|
  {
    if cs != [] {
      ApplyKeepsIdentity(d, cs[0]);
      RunKeepsIdentity(Apply(d, cs[0]), cs[1..]);
    }
  }

  /** A freshly registered user satisfies the invariant. */
  lemma RegisteredUserAboutItself(
    email: string, fullName: string, hashedPassword: string, phoneNumber: Option<string>, role: UserRole,
    id: UserId, eventId: Guid, registeredAt: Time, updatedAt: Time, eventAt: Time)
    requires RegisterStep(email, fullName, hashedPassword, phoneNumber, role, id, eventId, registeredAt, updatedAt, eventAt).Success?
    ensures EventsAboutUser(RegisterStep(email, fullName, hashedPassword, phoneNumber, role, id, eventId, registeredAt, updatedAt, eventAt).value)
  {
  }

  // ---------------------------------------------------------------- the object

  class User {
    var id: UserId
    var email: Email
    var fullName: FullName
    var password: Password
    var role: UserRole
    var phoneNumber: Option<PhoneNumber>
    var preferences: UserPreferences
    var status: UserStatus
    var registeredAt: Time
    var updatedAt: Time
    var lastLoginAt: Option<Time>
    var domainEvents: seq<UserEvent>

    function Data(): UserData
      reads this
    {
      UserData(id, email, fullName, password, role, phoneNumber, preferences, status,
               registeredAt, updatedAt, lastLoginAt, domainEvents)
    }

    constructor Init(d: UserData)
      ensures Data() == d
    {
      id, email, fullName, password, role, phoneNumber := d.id, d.email, d.fullName, d.password, d.role, d.phoneNumber;
      preferences, status, registeredAt, updatedAt := d.preferences, d.status, d.registeredAt, d.updatedAt;
      lastLoginAt, domainEvents := d.lastLoginAt, d.events;
    }

    static method Register(
      email: string, fullName: string, hashedPassword: string, phoneNumber: Option<string>, role: UserRole,
      id: UserId, eventId: Guid, registeredAt: Time, updatedAt: Time, eventAt: Time) returns (r: Result<User, Failure>)
      ensures var s := RegisterStep(email, fullName, hashedPassword, phoneNumber, role, id, eventId, registeredAt, updatedAt, eventAt);
        (r.Success? <==> s.Success?) && (r.Failure? ==> s == Failure(r.error))
        && (r.Success? ==> fresh(r.value) && r.value.Data() == s.value)
    {
      var e := EmailFrom(email);
      if e.Failure? { return Failure(e.error); }
      var n := FullNameFrom(fullName);
      if n.Failure? { return Failure(n.error); }
      var p := PasswordFromHash(hashedPassword);
      if p.Failure? { return Failure(p.error); }
      var ph := PhoneFromOptional(phoneNumber);
      if ph.Failure? { return Failure(ph.error); }
      var u := new User.Init(UserData(id, e.value, n.value, p.value, role, ph.value, DefaultPreferences(),
                                      Active, registeredAt, updatedAt, None, []));
      u.AddDomainEvent(UserEvent(eventId, eventAt,
        UserRegisteredEvent(id.value, e.value.value, n.value.value, role.ToString(), u.registeredAt)));
      return Success(u);
    }

    method UpdateProfile(
      fullName: Option<string>, phoneNumber: Option<string>, preferences: Option<UserPreferences>,
      eventId: Guid, now: Time, eventAt: Time) returns (o: Outcome<Failure>)
      modifies this
      ensures var a := UpdateProfileStep(old(Data()), fullName, phoneNumber, preferences, eventId, now, eventAt);
        o == a.outcome && Data() == a.after
    {
      if status.Suspended? {
        return Fail(InvalidOperation("Cannot update profile of suspended user"));
      }
      var hasChanges := false;
      if fullName.Some? {
        var n := FullNameFrom(fullName.value);
        if n.Failure? { return Fail(n.error); }
        this.fullName := n.value;
        hasChanges := true;
      }
      if phoneNumber.Some? {
        var p := PhoneFromOptional(phoneNumber);
        if p.Failure? { return Fail(p.error); }
        this.phoneNumber := p.value;
        hasChanges := true;
      }
      if preferences.Some? {
        this.preferences := preferences.value;
        hasChanges := true;
      }
      if hasChanges {
        updatedAt := now;
        AddDomainEvent(UserEvent(eventId, eventAt, UserProfileUpdatedEvent(id.value, fullName, phoneNumber, updatedAt)));
      }
      return Pass;
    }

    method ChangePassword(newHashedPassword: string, eventId: Guid, now: Time, eventAt: Time) returns (o: Outcome<Failure>)
      modifies this
      ensures var r := ChangePasswordStep(old(Data()), newHashedPassword, eventId, now, eventAt);
        (o.Pass? <==> r.Success?) && (o.Fail? ==> r == Failure(o.error))
        && Data() == (if r.Success? then r.value else old(Data()))
    {
      if status.Suspended? {
        return Fail(InvalidOperation("Cannot change password of suspended user"));
      }
      var p := PasswordFromHash(newHashedPassword);
      if p.Failure? { return Fail(p.error); }
      password := p.value;
      updatedAt := now;
      AddDomainEvent(UserEvent(eventId, eventAt, UserPasswordChangedEvent(id.value, updatedAt)));
      return Pass;
    }

    method PromoteToAdmin(eventId: Guid, now: Time, eventAt: Time) returns (o: Outcome<Failure>)
      modifies this
      ensures var r := PromoteToAdminStep(old(Data()), eventId, now, eventAt);
        (o.Pass? <==> r.Success?) && (o.Fail? ==> r == Failure(o.error))
        && Data() == (if r.Success? then r.value else old(Data()))
    {
      if role.Admin? {
        return Fail(InvalidOperation("User is already an admin"));
      }
      role := Admin;
      updatedAt := now;
      AddDomainEvent(UserEvent(eventId, eventAt, UserRoleChangedEvent(id.value, Admin.ToString(), updatedAt)));
      return Pass;
    }

    /** RecordLogin: only LastLoginAt changes, and no event is raised. */
    method RecordLogin(now: Time)
      modifies this
      ensures Data() == old(Data()).(lastLoginAt := Some(now))
    {
      lastLoginAt := Some(now);
    }

    method Suspend(reason: string, eventId: Guid, now: Time, eventAt: Time) returns (o: Outcome<Failure>)
      modifies this
      ensures var r := SuspendStep(old(Data()), reason, eventId, now, eventAt);
        (o.Pass? <==> r.Success?) && (o.Fail? ==> r == Failure(o.error))
        && Data() == (if r.Success? then r.value else old(Data()))
    {
      if status.Suspended? {
        return Fail(InvalidOperation("User is already suspended"));
      }
      status := Suspended;
      updatedAt := now;
      AddDomainEvent(UserEvent(eventId, eventAt, UserSuspendedEvent(id.value, reason, updatedAt)));
      return Pass;
    }

    method Activate(now: Time) returns (o: Outcome<Failure>)
      modifies this
      ensures var r := ActivateStep(old(Data()), now);
        (o.Pass? <==> r.Success?) && (o.Fail? ==> r == Failure(o.error))
        && Data() == (if r.Success? then r.value else old(Data()))
    {
      if status.Active? {
        return Fail(InvalidOperation("User is already active"));
      }
      status := Active;
      updatedAt := now;
      return Pass;
    }

    method ClearDomainEvents()
      modifies this
      ensures Data() == old(Data()).(events := [])
    {
      domainEvents := [];
    }

    method AddDomainEvent(e: UserEvent)
      modifies this
      ensures Data() == old(Data()).(events := old(domainEvents) + [e])
    {
      domainEvents := domainEvents + [e];
    }
  }
}
