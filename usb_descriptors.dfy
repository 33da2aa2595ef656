/** The USB descriptors the board hands to the USB stack: the serial-number
    string descriptor built at start-up (section 9.6.7 of USB 2.0) and the
    Get Descriptor callback that picks a descriptor from wValue (section
    9.4.3 of USB 2.0). Descriptor contents are not modelled; each
    descriptor is named and its size is a constant or a parameter. */
module UsbDescriptors {
  import opened Wrappers

  /** A uint16_t. */
  type U16 = x: int | 0 <= x < 0x1_0000

  /** bDescriptorType values (Table 9-5 of USB 2.0). */
  const DTypeDevice: int := 1
  const DTypeConfiguration: int := 2
  const DTypeString: int := 3

  /** The string indices the device descriptor names. */
  const StringIdLang: int := 0
  const StringIdMfr: int := 1
  const StringIdProd: int := 2
  const StringIdSerial: int := 3

  const SerialNoStrLenMax: nat := 16
  /** UnicodeString of the serial descriptor: [SERIALNO_STR_LEN_MAX] = 0
      makes it 17 entries long. */
  const SerialUnits: nat := 17

  /** sizeof(USB_Descriptor_Device_t), fixed at 18 by section 9.6.1 of
      USB 2.0. */
  const DeviceDescriptorSize: int := 18
  /** sizeof(struct config_descriptor): configuration header 9, two
      interfaces 9 each, CDC header, ACM and union functional descriptors
      5, 4 and 5, three endpoints 7 each. */
  const ConfigDescriptorSize: int := 62
  /** The language-ID string descriptor: a header and one language ID. */
  const LangDescriptorSize: int := 4
  /** NO_DESCRIPTOR. */
  const NoDescriptor: int := 0

  /** USB_STRING_LEN(n): bLength of a string descriptor holding n UTF-16
      code units, a two-byte header and two bytes per unit. */
  function UsbStringLen(n: nat): int {
    2 + 2 * n
  }

  /** (uint16_t)c for the AVR's signed char: ASCII bytes keep their value,
      bytes from 0x80 up are sign-extended. */
  function Widen(b: bv8): (u: bv16)
    ensures b < 0x80 ==> u == b as bv16
    ensures b >= 0x80 ==> u == 0xFF00 | (b as bv16)
  {
    if b < 0x80 then b as bv16 else 0xFF00 | (b as bv16)
  }

  /** The number of characters usbcdc__initSerialNo copies. */
  function SerialLen(hardcoded: seq<bv8>): (n: nat)
    ensures n <= SerialNoStrLenMax && n <= |hardcoded|
    ensures n == |hardcoded| || n == SerialNoStrLenMax
  {
    if |hardcoded| > SerialNoStrLenMax then SerialNoStrLenMax else |hardcoded|
  }

  /** The UnicodeString after usbcdc__initSerialNo: the first n entries the
      widened characters, the rest as they were. */
  function SerialUnitsAfterInit(hardcoded: seq<bv8>, before: seq<bv16>): (units: seq<bv16>)
    requires |before| == SerialUnits
    ensures |units| == SerialUnits
    ensures forall i :: 0 <= i < SerialLen(hardcoded) ==> units[i] == Widen(hardcoded[i])
    ensures forall i :: SerialLen(hardcoded) <= i < SerialUnits ==> units[i] == before[i]
  {
    var n := SerialLen(hardcoded);
    seq(n, i requires 0 <= i < n => Widen(hardcoded[i])) + before[n..]
  }

  /** The serial descriptor's bLength counts exactly the copied characters:
      it is even, at most 34, and (bLength - 2) / 2 gives back the number
      of units the host will read. */
  lemma SerialLengthField(hardcoded: seq<bv8>)
    ensures var len := UsbStringLen(SerialLen(hardcoded));
            len % 2 == 0 && 2 <= len <= UsbStringLen(SerialNoStrLenMax) && UsbStringLen(SerialNoStrLenMax) == 34 &&
            (len - 2) / 2 == SerialLen(hardcoded)
  {
  }

  /** From the zero-initialised descriptor, the units after the copied
      characters stay zero, so the string the host reads is the ID itself,
      truncated to 16 characters, and an ASCII ID is carried unchanged. */
  lemma SerialFromPowerOn(hardcoded: seq<bv8>)
    ensures var units := SerialUnitsAfterInit(hardcoded, seq(SerialUnits, _ => 0));
            (forall i :: SerialLen(hardcoded) <= i < SerialUnits ==> units[i] == 0) &&
            ((forall i :: 0 <= i < |hardcoded| ==> hardcoded[i] < 0x80) ==>
               forall i :: 0 <= i < SerialLen(hardcoded) ==> units[i] == hardcoded[i] as bv16)
  {
  }

  /** serialNoStringDesc: a RAM string descriptor whose size is set at run
      time. */
  class SerialDescriptor {
    var size: int
    const unicodeString: array<bv16>

    /** The static initialisation: size 0, every unit 0. */
    constructor ()
      ensures size == 0 && unicodeString.Length == SerialUnits
      ensures forall i :: 0 <= i < SerialUnits ==> unicodeString[i] == 0
      ensures fresh(unicodeString)
    {
      size := 0;
      unicodeString := new bv16[SerialUnits](_ => 0);
    }

    /** usbcdc__initSerialNo with DEFAULT_SERIALNO_STR's characters (those
        before its NUL). */
    method InitSerialNo(hardcoded: seq<bv8>)
      requires unicodeString.Length == SerialUnits
      requires forall i :: 0 <= i < |hardcoded| ==> hardcoded[i] != 0
      modifies this, unicodeString
      ensures unicodeString[..] == SerialUnitsAfterInit(hardcoded, old(unicodeString[..]))
      ensures size == UsbStringLen(SerialLen(hardcoded))
    {
      var strLen := |hardcoded|;
      if strLen > SerialNoStrLenMax {
        strLen := SerialNoStrLenMax;
      }
      for i := 0 to strLen
        invariant forall k :: 0 <= k < i ==> unicodeString[k] == Widen(hardcoded[k])
        invariant forall k :: i <= k < SerialUnits ==> unicodeString[k] == old(unicodeString[k])
      {
        unicodeString[i] := Widen(hardcoded[i]);
      }
      size := UsbStringLen(strLen);
    }
  }

  /** The descriptors the callback can point at. */
  datatype Descriptor = DeviceDesc | LangString | MfrString | ProdString | SerialString | ConfigDesc

  /** MEMSPACE_FLASH or MEMSPACE_RAM. */
  datatype MemSpace = Flash | Ram

  /** What CALLBACK_USB_GetDescriptor returns and writes: the size, the
      descriptor address (None for NULL), and the memory space (None when
      it is left unwritten). */
  datatype Reply = Reply(size: int, address: Option<Descriptor>, memSpace: Option<MemSpace>)

  /** The sizes the callback reads at run time: the manufacturer and
      product string descriptors' stored sizes and the serial descriptor's
      current size. */
  datatype StringSizes = StringSizes(mfr: int, prod: int, serial: int)

  /** The configuration descriptor, where an unknown string index also
      ends up. */
  function ConfigReply(): Reply {
    Reply(ConfigDescriptorSize, Some(ConfigDesc), Some(Flash))
  }

  /** CALLBACK_USB_GetDescriptor as written: the type is the high byte of
      wValue, the index the low byte; wIndex is not used; a string index
      above 3 falls through into the Configuration case. */
  function GetDescriptor(wValue: U16, wIndex: U16, sizes: StringSizes): Reply {
    var descriptorIdx := wValue % 0x100;
    var descriptorType := wValue / 0x100;
    if descriptorType == DTypeDevice then Reply(DeviceDescriptorSize, Some(DeviceDesc), Some(Flash))
    else if descriptorType == DTypeString && descriptorIdx == StringIdLang then
      Reply(LangDescriptorSize, Some(LangString), Some(Flash))
    else if descriptorType == DTypeString && descriptorIdx == StringIdMfr then
      Reply(sizes.mfr, Some(MfrString), Some(Flash))
    else if descriptorType == DTypeString && descriptorIdx == StringIdProd then
      Reply(sizes.prod, Some(ProdString), Some(Flash))
    else if descriptorType == DTypeString && descriptorIdx == StringIdSerial then
      Reply(sizes.serial, Some(SerialString), Some(Ram))
    else if descriptorType == DTypeString || descriptorType == DTypeConfiguration then ConfigReply()
    else Reply(NoDescriptor, None, None)
  }

  /** The request wValue for descriptor type t and index i. */
  function RequestValue(t: int, i: int): U16
    requires 0 <= t < 0x100 && 0 <= i < 0x100
  {
    t * 0x100 + i
  }

  /** The dispatch on the descriptor type: a device request returns the
      18-byte device descriptor from flash; a configuration request the
      configuration descriptor whatever its index; any other type NULL and
      NO_DESCRIPTOR with the memory space unwritten. wIndex never matters. */
  lemma GetDescriptorByType(t: int, i: int, wIndex: U16, other: U16, sizes: StringSizes)
    requires 0 <= t < 0x100 && 0 <= i < 0x100
    ensures GetDescriptor(RequestValue(t, i), wIndex, sizes) == GetDescriptor(RequestValue(t, i), other, sizes)
    ensures t == DTypeDevice ==>
              GetDescriptor(RequestValue(t, i), wIndex, sizes) == Reply(18, Some(DeviceDesc), Some(Flash))
    ensures t == DTypeConfiguration ==> GetDescriptor(RequestValue(t, i), wIndex, sizes) == ConfigReply()
    ensures t != DTypeDevice && t != DTypeConfiguration && t != DTypeString ==>
              GetDescriptor(RequestValue(t, i), wIndex, sizes) == Reply(NoDescriptor, None, None)
  {
    assert RequestValue(t, i) / 0x100 == t && RequestValue(t, i) % 0x100 == i;
  }

  /** String requests: indices 0-3 give the language, manufacturer and
      product descriptors from flash with their stored sizes and the serial
      descriptor from RAM with its current size; an index above 3 falls
      through and gets the configuration descriptor. */
  lemma GetDescriptorStrings(i: int, wIndex: U16, sizes: StringSizes)
    requires 0 <= i < 0x100
    ensures var r := GetDescriptor(RequestValue(DTypeString, i), wIndex, sizes);
            (i == StringIdLang ==> r == Reply(4, Some(LangString), Some(Flash))) &&
            (i == StringIdMfr ==> r == Reply(sizes.mfr, Some(MfrString), Some(Flash))) &&
            (i == StringIdProd ==> r == Reply(sizes.prod, Some(ProdString), Some(Flash))) &&
            (i == StringIdSerial ==> r == Reply(sizes.serial, Some(SerialString), Some(Ram))) &&
            (i > StringIdSerial ==> r == ConfigReply())
  {
    assert RequestValue(DTypeString, i) / 0x100 == DTypeString && RequestValue(DTypeString, i) % 0x100 == i;
  }

  /** The callback with the evident intent of the string case: an unknown
      string index gets NULL and NO_DESCRIPTOR like any unknown request. */
  function GetDescriptorIntended(wValue: U16, wIndex: U16, sizes: StringSizes): Reply {
    var descriptorIdx := wValue % 0x100;
    var descriptorType := wValue / 0x100;
    if descriptorType == DTypeString && descriptorIdx > StringIdSerial then Reply(NoDescriptor, None, None)
    else GetDescriptor(wValue, wIndex, sizes)
  }

  /** With the fall-through removed, a string request is answered with a
      string descriptor or with nothing, never with another kind; every
      other request is answered as before. */
  lemma IntendedAnswersStringsWithStrings(t: int, i: int, wIndex: U16, sizes: StringSizes)
    requires 0 <= t < 0x100 && 0 <= i < 0x100
    ensures t == DTypeString ==>
              GetDescriptorIntended(RequestValue(t, i), wIndex, sizes).address in
                {None, Some(LangString), Some(MfrString), Some(ProdString), Some(SerialString)}
    ensures (t != DTypeString || i <= StringIdSerial) ==>
              GetDescriptorIntended(RequestValue(t, i), wIndex, sizes) ==
                GetDescriptor(RequestValue(t, i), wIndex, sizes)
  {
    assert RequestValue(t, i) / 0x100 == t && RequestValue(t, i) % 0x100 == i;
  }

  /** As written, string index 4 is answered with the configuration
      descriptor. */
  lemma StringIndexFallsThrough(wIndex: U16, sizes: StringSizes)
    ensures GetDescriptor(RequestValue(DTypeString, 4), wIndex, sizes).address == Some(ConfigDesc)
    ensures GetDescriptorIntended(RequestValue(DTypeString, 4), wIndex, sizes).address == None
  {
  }
}
