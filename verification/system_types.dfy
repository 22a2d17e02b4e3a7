// Shared vocabulary of the switch firmware: users, permission levels and the
// EEPROM layout constants that several tasks agree on.

module SystemTypes {

  datatype Option<T> = None | Some(value: T)

  /** Number of user slots that can be added from the console; slot 15 is the built-in root account. */
  const MAX_USERS: nat := 15

  /** Role of a user. The declaration order is the privilege order. */
  datatype PermLevel = ReadOnlyUser | ModifyPortsOnly | ModifySystem | Administrator

  /** The integer value of the C enumerator, used for "more privileged than" comparisons. */
  function Level(p: PermLevel): (n: nat)
    ensures n <= 3
    ensures p == ReadOnlyUser <==> n == 0
    ensures p == Administrator <==> n == 3
  {
    match p
    case ReadOnlyUser => 0
    case ModifyPortsOnly => 1
    case ModifySystem => 2
    case Administrator => 3
  }

  /** What the EEPROM writer must do with a user slot the next time it saves. */
  datatype Action = Update | Delete | Add | NoAction

  /** One user slot. Strings are the contents before the terminating NUL (at most 15 characters). */
  datatype UserData = UserData(
    username: string,
    firstName: string,
    lastName: string,
    password: string,
    permissions: PermLevel,
    isMarked: bool,
    nextAction: Action)

  /** A zero-initialised slot. */
  const EmptyUser: UserData := UserData("", "", "", "", ReadOnlyUser, false, NoAction)

  /** The console reads lines into 16-byte buffers: at most 15 characters are kept. */
  const LINE_CAPACITY: nat := 15

  function Truncate(line: string): (r: string)
    ensures |r| <= LINE_CAPACITY
    ensures |r| <= |line| && r == line[..|r|]
    ensures |line| <= LINE_CAPACITY ==> r == line
  {
    if |line| <= LINE_CAPACITY then line else line[..LINE_CAPACITY]
  }

  // EEPROM layout
  const EEPROM_FIRMWARE_SETTINGS: nat := 0x1E
  const EEPROM_FIRMWARE_LOGFLAGS_1: nat := 0x1F
  const EEPROM_FIRMWARE_NEXTLOG_1: nat := 0x23
  const EEPROM_USERS_BASE: nat := 0x1200
  const EEPROM_LOG_BASE: nat := 0x1600

  /** uint32_t arithmetic */
  const UINT32_MODULUS: nat := 0x1_0000_0000

  /** A uint32_t sum: the one value below 2^32 congruent to a + b. */
  function Add32(a: nat, b: nat): (r: nat)
    ensures r < UINT32_MODULUS && (a + b - r) % UINT32_MODULUS == 0
    ensures a + b < UINT32_MODULUS ==> r == a + b
    ensures a + b >= UINT32_MODULUS && a + b < 2 * UINT32_MODULUS ==> r == a + b - UINT32_MODULUS
  {
    (a + b) % UINT32_MODULUS
  }
}
