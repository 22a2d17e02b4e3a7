// Start-up decisions: the default user table, and what the EEPROM
// initialisation does with the firmware-settings byte and the values it reads
// back (log flags, next log slot, stored users).

module Boot {
  import opened SystemTypes
  import opened Authentication
  import opened EventLogger

  /** The built-in account kept in the slot past the MAX_USERS addable ones. */
  const ROOT_USER: UserData := UserData("root", "DEFAULT", "ADMIN", "root", Administrator, false, NoAction)

  /** The user table as compiled in: MAX_USERS empty read-only slots, then root. */
  function DefaultUsers(): (users: seq<UserData>)
    ensures |users| == USER_SLOTS
  {
    seq(MAX_USERS, _ => EmptyUser) + [ROOT_USER]
  }

  /** Before any user is loaded, exactly the pair root/root logs in, and it logs in as the root slot. */
  lemma FreshBootLogin(name: string, pass: string)
    ensures FindUser(DefaultUsers(), name, pass) == if name == "root" && pass == "root" then Some(MAX_USERS) else None
  {
    var users := DefaultUsers();
    FindUserIsFirstMatch(users, name, pass, 0);
    assert forall s :: 0 <= s < MAX_USERS ==> !Accepts(users[s], name, pass);
    if name == "root" && pass == "root" {
      assert Accepts(users[MAX_USERS], name, pass);
    }
  }

  /** Bit `mask` (a power of two) of the settings byte, as the C tests `(settings & mask) == mask`. */
  predicate SettingsBit(settings: nat, mask: nat)
    requires mask > 0
  {
    (settings / mask) % 2 == 1
  }

  /** What the start-up does, decided from the firmware-settings byte. */
  datatype BootPlan = BootPlan(erase: bool, reload: bool, reloadVLANs: bool, reloadUsers: bool)

  /**
   * Bit 7 erases the chip; bit 6 reloads the switch configuration, the log
   * flags and the log slot; bits 5 (VLANs) and 4 (users) count only under bit 6.
   */
  function PlanBoot(settings: nat): (p: BootPlan)
    ensures p.reloadVLANs ==> p.reload
    ensures p.reloadUsers ==> p.reload
  {
    var reload := SettingsBit(settings, 0x40);
    BootPlan(SettingsBit(settings, 0x80), reload, reload && SettingsBit(settings, 0x20), reload && SettingsBit(settings, 0x10))
  }

  /**
   * The plan read off the byte's value: erase exactly when it is at least
   * 0x80, a reload exactly when its low seven bits are at least 0x40, and the
   * VLAN and user reloads when, in addition, its low six bits are at least
   * 0x20, respectively its low five bits are at least 0x10.
   */
  lemma PlanByValue(settings: nat)
    requires settings < 256
    ensures var p := PlanBoot(settings);
      (p.erase <==> settings >= 0x80)
      && (p.reload <==> settings % 0x80 >= 0x40)
      && (p.reloadVLANs <==> settings % 0x80 >= 0x40 && settings % 0x40 >= 0x20)
      && (p.reloadUsers <==> settings % 0x80 >= 0x40 && settings % 0x20 >= 0x10)
  {
    assert settings == 0x80 * (settings / 0x80) + settings % 0x80;
    assert settings % 0x80 == 0x40 * (settings % 0x80 / 0x40) + settings % 0x40;
    assert settings % 0x40 == 0x20 * (settings % 0x40 / 0x20) + settings % 0x20;
    assert settings % 0x20 == 0x10 * (settings % 0x20 / 0x10) + settings % 0x10;
    assert settings / 0x40 == 2 * (settings / 0x80) + settings % 0x80 / 0x40;
    assert settings / 0x20 == 2 * (settings / 0x40) + settings % 0x40 / 0x20;
    assert settings / 0x10 == 2 * (settings / 0x20) + settings % 0x20 / 0x10;
  }

  /** A user record as stored in the EEPROM user area. */
  datatype StoredUser = StoredUser(username: string, password: string, firstName: string, lastName: string, permissions: PermLevel)

  /**
   * What the start-up reads back from the EEPROM (after the erase, when there
   * was one), and whether a write to the Ethernet controller during the VLAN
   * reload fails, which ends the initialisation early.
   */
  datatype Contents = Contents(logFlagBytes: seq<nat>, nextLogBytes: seq<nat>, storedUsers: seq<StoredUser>,
                               vlanWriteFails: bool)

  predicate WellFormedContents(c: Contents)
  {
    |c.logFlagBytes| == 4 && |c.nextLogBytes| == 4 && |c.storedUsers| == MAX_USERS
  }

  /** A slot after its stored record is loaded: credentials, names and role replaced, no pending save action. */
  function LoadedUser(u: UserData, r: StoredUser): UserData
  {
    u.(username := r.username, password := r.password, firstName := r.firstName, lastName := r.lastName,
       permissions := r.permissions, nextAction := NoAction)
  }

  /** The table after the user reload: the first MAX_USERS slots loaded from the stored records, the root slot untouched. */
  function LoadedUsers(users: seq<UserData>, stored: seq<StoredUser>): (loaded: seq<UserData>)
    requires |users| == USER_SLOTS && |stored| == MAX_USERS
    ensures |loaded| == USER_SLOTS
  {
    seq(USER_SLOTS, i requires 0 <= i < USER_SLOTS => if i < MAX_USERS then LoadedUser(users[i], stored[i]) else users[i])
  }

  /** A loaded next-log slot below the log area is raised to its base. */
  function ClampSlot(loaded: nat): (slot: nat)
    ensures slot >= EEPROM_LOG_BASE
    ensures loaded >= EEPROM_LOG_BASE ==> slot == loaded
  {
    if loaded < EEPROM_LOG_BASE then EEPROM_LOG_BASE else loaded
  }

  /** The globals once the start-up is done, and the initialisation's boolean result. */
  datatype Booted = Booted(plan: BootPlan, users: seq<UserData>, logStatusFlags: nat, nextLogSlot: nat, ok: bool)

  /** A failed controller write inside the VLAN reload returns at once: the user reload after it never runs. */
  predicate AbortedInVLANs(settings: nat, c: Contents)
  {
    PlanBoot(settings).reloadVLANs && c.vlanWriteFails
  }

  /**
   * The start-up with settings byte `settings`, the reads returning `c`;
   * without a reload the globals keep their initial values, and an aborted
   * VLAN reload leaves the compiled-in user table.
   */
  function BootWith(settings: nat, c: Contents): (b: Booted)
    requires WellFormedContents(c)
    ensures |b.users| == USER_SLOTS && b.users[MAX_USERS] == ROOT_USER
    ensures b.ok <==> !AbortedInVLANs(settings, c)
    ensures !(b.plan.reloadUsers && b.ok) ==> b.users == DefaultUsers()
  {
    var plan := PlanBoot(settings);
    var aborted := AbortedInVLANs(settings, c);
    Booted(plan,
      if plan.reloadUsers && !aborted then LoadedUsers(DefaultUsers(), c.storedUsers) else DefaultUsers(),
      if plan.reload then Join32(c.logFlagBytes) else 0,
      if plan.reload then ClampSlot(Join32(c.nextLogBytes)) else EEPROM_LOG_BASE,
      !aborted)
  }

  /** Whatever the settings and the stored records, the root slot survives the start-up and root/root still logs in. */
  lemma RootSurvivesBoot(settings: nat, c: Contents)
    requires WellFormedContents(c)
    ensures var b := BootWith(settings, c);
      |b.users| == USER_SLOTS && b.users[MAX_USERS] == ROOT_USER && FindUser(b.users, "root", "root").Some?
  {
    var b := BootWith(settings, c);
    FindUserIsFirstMatch(b.users, "root", "root", 0);
    assert Accepts(b.users[MAX_USERS], "root", "root");
  }

  /** After a user reload that was reached, slot i below MAX_USERS holds stored record i, marked for no action, and keeps its mark. */
  lemma ReloadedSlots(settings: nat, c: Contents, i: nat)
    requires WellFormedContents(c) && PlanBoot(settings).reloadUsers && !AbortedInVLANs(settings, c) && i < MAX_USERS
    ensures var u := BootWith(settings, c).users[i]; var r := c.storedUsers[i];
      u.username == r.username && u.password == r.password && u.firstName == r.firstName
      && u.lastName == r.lastName && u.permissions == r.permissions && u.nextAction == NoAction && !u.isMarked
  {
  }

  /**
   * A VLAN reload that fails part-way reports failure after the log flags and
   * slot were already loaded, and skips the user reload: only root/root logs in.
   */
  lemma AbortedBootKeepsDefaultUsers(settings: nat, c: Contents, name: string, pass: string)
    requires WellFormedContents(c) && AbortedInVLANs(settings, c)
    ensures var b := BootWith(settings, c);
      !b.ok && b.logStatusFlags == Join32(c.logFlagBytes) && b.nextLogSlot == ClampSlot(Join32(c.nextLogBytes))
      && FindUser(b.users, name, pass) == if name == "root" && pass == "root" then Some(MAX_USERS) else None
  {
    FreshBootLogin(name, pass);
  }

  /** The next log slot never starts below the log area. */
  lemma SlotAfterBoot(settings: nat, c: Contents)
    requires WellFormedContents(c)
    ensures var b := BootWith(settings, c);
      b.nextLogSlot >= EEPROM_LOG_BASE
      && (!b.plan.reload ==> b.nextLogSlot == EEPROM_LOG_BASE && b.logStatusFlags == 0)
  {
  }

  /**
   * A flag word and a slot saved as four big-endian bytes each come back
   * unchanged on a start-up that reloads (the slot provided it lies in the log area).
   */
  lemma SavedLogStateRestored(settings: nat, c: Contents, flags: nat, slot: nat)
    requires WellFormedContents(c) && PlanBoot(settings).reload
    requires flags < UINT32_MODULUS && EEPROM_LOG_BASE <= slot < UINT32_MODULUS
    requires c.logFlagBytes == Split32(flags) && c.nextLogBytes == Split32(slot)
    ensures BootWith(settings, c).logStatusFlags == flags && BootWith(settings, c).nextLogSlot == slot
  {
    JoinSplit(flags);
    JoinSplit(slot);
  }

  /** The user-database loop: reads the MAX_USERS stored records into the first slots of the table, in place. */
  method LoadUserDatabase(users: array<UserData>, stored: seq<StoredUser>)
    requires users.Length == USER_SLOTS && |stored| == MAX_USERS
    modifies users
    ensures users[..] == LoadedUsers(old(users[..]), stored)
  {
    for i := 0 to MAX_USERS
      invariant forall j :: 0 <= j < i ==> users[j] == LoadedUser(old(users[j]), stored[j])
      invariant forall j :: i <= j < USER_SLOTS ==> users[j] == old(users[j])
    {
      users[i] := LoadedUser(users[i], stored[i]);
    }
  }
}
