# ArmDeck in Dafny

ArmDeck is a Bluetooth Low Energy macro pad. This project models its core in
Dafny and proves properties of the model:

- the ESP32 firmware:
  - the stand-alone build that types F13..F24 over BLE HID (`main/armdeck_main.c`);
  - the protocol build's frame handler, GATT service, advertising state
    machine, binary configuration store and debounced button matrix
    (`main/armdeck_protocol.*`, `main/armdeck_service.c`, `main/armdeck_ble.c`,
    `main/armdeck_config.c`, `main/button_matrix.c`);
  - the older JSON configuration store and 4x4 pad of the service component
    (`components/armdeck_service/armdeck_config.c`,
    `components/button_matrix/button_matrix.c`);
- the web configurator:
  - the protocol constants and HID tables (`pwa/src/ble/constants.ts`);
  - the frame and 16-byte button codecs (`pwa/src/ble/utils.ts`);
  - the command exchanger (`pwa/src/ble/communication.ts`);
  - the button synchronizer (`pwa/src/ble/useBle.ts`);
  - the older configuration hook (`pwa/src/hooks/useDeviceConfig.ts`);
  - the macro catalogue (`pwa/src/data/macros.ts`);
  - the battery widget's classification (`pwa/src/components/BatteryWidget.tsx`);
- the desktop shell's Bluetooth commands (`tauri/src-tauri/src/ble.rs`).

Frames on the wire are `AD DC <command> <length> <payload> <checksum>`. The
checksum is the XOR of every byte before it. Key codes are usages of the
Keyboard/Keypad page (0x07) of the USB HID Usage Tables. Media codes are the
low byte of usages of the Consumer page (0x0C).

How the model is built:

- Pure code (codecs, lookup tables, filters) becomes datatypes, functions and
  lemmas.
- Code that updates state in place becomes classes whose methods carry
  `modifies` clauses. Each such method is proved against a specification
  function or a progress predicate over the old and new state. Examples are
  the firmware's buffers and stores, the matrix scan tasks, the synchronizer
  and the hook's React state, and the desktop shell's connection state.
- The outside world becomes parameters: the Bluetooth stack, NVS flash, GPIO
  levels, the clock, CRC32 and JSON parsing. Bytes sent to the outside world
  (notifications, HID reports, GATT writes, progress events) are recorded in
  sequences that the contracts describe.

One module per source file; `bytes.dfy` (XOR and Option), `esp.dfy` (error
codes) and `js_text.dfy` (the JavaScript string built-ins the codecs rely on)
are shared helpers. `cross_checks.dfy` relates what each side of the protocol
makes of the other's bytes.

## Model

| member | source | states |
|---|---|---|
| Bytes.XorAllWithSum | pwa/src/ble/utils.ts:6-8 | a byte sequence followed by its XOR checksum XORs to zero |
| Bytes.XorAllUpdate | pwa/src/ble/utils.ts:6-8 | changing any one byte changes the XOR checksum |
| Bytes.XorCancel | pwa/src/ble/utils.ts:6-8 | XOR with a fixed byte is injective on either side |
| ClientConstants.KeyNameDeterminesCode | pwa/src/ble/constants.ts:53-68 | every KEY_MAP name spells its own usage code (letters, digits, named keys, F1..F24, arrows) |
| ClientConstants.LetterKeyNames | pwa/src/ble/constants.ts:54-58 | the letter names A..Z spell the codes 0x04..0x1D |
| ClientConstants.DigitKeyNames | pwa/src/ble/constants.ts:58-59 | the digit names spell the codes 0x1E..0x27, with 0 at 0x27 |
| ClientConstants.NamedKeyNames | pwa/src/ble/constants.ts:60-61 | ENTER, ESCAPE, BACKSPACE, TAB, SPACE and CAPS_LOCK spell their codes |
| ClientConstants.LowFunctionKeyNames | pwa/src/ble/constants.ts:62-63 | F1..F12 spell the codes 0x3A..0x45 |
| ClientConstants.ArrowKeyNames | pwa/src/ble/constants.ts:67 | RIGHT, LEFT, DOWN and UP spell the codes 0x4F..0x52 |
| ClientConstants.HighFunctionKeyNames | pwa/src/ble/constants.ts:64-66 | F20..F24 spell 0x6F..0x73 and F13..F19 spell 0x74..0x7A |
| ClientConstants.KeyMapInjective | pwa/src/ble/constants.ts:53-68 | two codes with the same KEY_MAP name are equal |
| ClientConstants.MediaMapInjective | pwa/src/ble/constants.ts:70-80 | two codes with the same MEDIA_MAP name are equal |
| ClientConstants.KeyReverseMapInverts | pwa/src/ble/constants.ts:82-84 | KEY_REVERSE_MAP maps n to c exactly when KEY_MAP maps c to n |
| ClientConstants.MediaReverseMapInverts | pwa/src/ble/constants.ts:86-88 | MEDIA_REVERSE_MAP maps n to c exactly when MEDIA_MAP maps c to n |
| ClientConstants.SharedCodes | pwa/src/ble/constants.ts:65-79 | a code has both a key name and a media name exactly when it is 0x6F or 0x70 (F20/F21 and BRIGHTNESS_UP/DOWN) |
| PacketCodec.BuildCommand | pwa/src/ble/utils.ts:18-35 | the frame has payload + 5 bytes: AD DC, the command, the length modulo 256, then the whole payload |
| PacketCodec.BuildCommandXorsToZero | pwa/src/ble/utils.ts:18-35 | the last byte of a built frame is the XOR of the bytes before it, so the whole frame XORs to zero |
| PacketCodec.FindMagic | pwa/src/ble/utils.ts:43-49 | the scan finds the first AD DC at an index up to length - 4, or reports none when there is none |
| PacketCodec.ParseResponse | pwa/src/ble/utils.ts:37-84 | a result comes only from a frame whose declared length fits and whose checksum matches; its payload, when present, has 1..254 bytes |
| PacketCodec.ParseRejectsShortOrUnmarked | pwa/src/ble/utils.ts:38-54 | null for fewer than 5 bytes or when no AD DC starts at an index up to length - 4 |
| PacketCodec.ParseRejectsFromMarker | pwa/src/ble/utils.ts:56-78 | from the first marker on: null when fewer than 5 bytes or fewer than the declared length remain, or the checksum differs |
| PacketCodec.ParseBuildRoundTrip | pwa/src/ble/utils.ts:18-84 | a frame built with a 1..255-byte payload parses back to its command, the first payload byte as error, and the rest as payload (undefined when empty) |
| PacketCodec.ParseEmptyPayload | pwa/src/ble/utils.ts:80-81 | with an empty payload the "error" read back is the checksum byte itself |
| PacketCodec.GetInfoFrame | pwa/src/ble/utils.ts:18-35 | GET_INFO with no payload is AD DC 10 00 61 |
| PacketCodec.CorruptedFrameRejected | pwa/src/ble/utils.ts:71-78 | changing the command, a payload byte or the checksum of a built frame makes it parse to null |
| PacketCodec.JunkAndTrailingIgnored | pwa/src/ble/utils.ts:43-71 | bytes before a frame that hold no AD DC, and bytes after its declared end, do not change the result |
| ButtonCodec.CreateEmptyButton | pwa/src/ble/utils.ts:10-16 | the empty slot keeps its id, has no action and is clean |
| ButtonCodec.DecodeLabel | pwa/src/ble/utils.ts:103-108 | the label is the bytes before the first NUL, each read as the character with that code |
| ButtonCodec.ParseButtonData | pwa/src/ble/utils.ts:89-143 | fewer than 16 bytes give createEmptyButton; otherwise a 7-character colour starting with '#' and a label of at most 8 characters or "Button n+1"; never empty, never dirty |
| ButtonCodec.ActionCode | pwa/src/ble/utils.ts:151-189 | an empty action is type NONE with code 0; the media test comes first and gives MEDIA; otherwise a KEY_ prefix gives KEY |
| ButtonCodec.BuildButtonPayload | pwa/src/ble/utils.ts:145-205 | defined exactly when the UTF-8 of the label's first 7 UTF-16 units fits in 8 bytes (otherwise the RangeError); 16 bytes, index modulo 256, modifier and reserved 0, type and code from ActionCode |
| ButtonCodecRoundTrip.NoKeyNameIsMedia | pwa/src/ble/utils.ts:155-159 | no KEY_ action built from a KEY_MAP name passes the media test |
| ButtonCodecRoundTrip.MediaNameIsMedia | pwa/src/ble/utils.ts:155-159 | every MEDIA_MAP name passes the media test and none is "MUTE" |
| ButtonCodecRoundTrip.PlainActionsAreNotMedia | pwa/src/ble/utils.ts:155-159 | MACRO and CUSTOM fail the media test |
| ButtonCodecRoundTrip.KeyActionRoundTrip | pwa/src/ble/utils.ts:181-184 | KEY_ plus a KEY_MAP name is read back as itself |
| ButtonCodecRoundTrip.MediaActionRoundTrip | pwa/src/ble/utils.ts:162-178 | a MEDIA_MAP name is read back as itself |
| ButtonCodecRoundTrip.ActionRoundTrip | pwa/src/ble/utils.ts:111-131 | every restorable action is recovered from the type and code it is stored as |
| ButtonCodecRoundTrip.HexPairValue | pwa/src/ble/utils.ts:147-149 | parseInt of two hex digits with radix 16 is 16 * high + low |
| ButtonCodecRoundTrip.HexPairRoundTrip | pwa/src/ble/utils.ts:133 | toString(16).padStart(2, '0') of a parsed hex pair gives the digits back in lower case |
| ButtonCodecRoundTrip.ComponentRoundTrip | pwa/src/ble/utils.ts:147-149 | a colour component written from two hex digits prints back as those digits in lower case |
| ButtonCodecRoundTrip.HashRemoved | pwa/src/ble/utils.ts:146 | replace('#', '') on a colour starting with '#' drops that character only |
| ButtonCodecRoundTrip.ColorRoundTrip | pwa/src/ble/utils.ts:133-149 | a '#RRGGBB' colour written to the payload reads back as itself in lower case |
| ButtonCodecRoundTrip.DecodePadded | pwa/src/ble/utils.ts:103-108 | ASCII label bytes followed by a NUL decode back to the label |
| ButtonCodecRoundTrip.LabelRoundTrip | pwa/src/ble/utils.ts:201-202 | a 1..7-character ASCII label written at byte 8 reads back as itself |
| ButtonCodecRoundTrip.ButtonRoundTrip | pwa/src/ble/utils.ts:89-205 | parseButtonData(buildButtonPayload(b)) restores the label, the colour up to case and every restorable action, and is clean |
| ButtonCodecRoundTrip.PayloadFields | pwa/src/ble/utils.ts:191-202 | bytes 4..6 are the parsed colour components and bytes 8..15 the encoded label followed by zeros |
| ButtonCodecRoundTrip.MediaBeforeKeyPrefix | pwa/src/ble/utils.ts:156-163 | an action passing the media test is stored as MEDIA even when it starts with KEY_ |
| ButtonCodecRoundTrip.FallbackCodes | pwa/src/ble/utils.ts:172-184 | an unknown media name is stored as 0xCD and an unknown KEY_ name as 0x04 |
| ButtonCodecRoundTrip.NonRestorableActions | pwa/src/ble/utils.ts:161-169 | MUTE is stored as VOLUME_MUTE (0xE2) and read back as VOLUME_MUTE; an empty action reads back as UNKNOWN |
| Exchanger.ExchangeReads | pwa/src/ble/communication.ts:26-52 | at most two reads; the second happens exactly when the first yields zero bytes; a returned frame passes the validity test and is the last read's bytes |
| Exchanger.ExchangeFirstRead | pwa/src/ble/communication.ts:26-52 | an accepted first read is returned as it is; a non-empty rejected first read gives null with no second read |
| Exchanger.ChecksumNotChecked | pwa/src/ble/communication.ts:29-34 | AD DC 10 00 00 is returned although parseResponse rejects its checksum |
| Exchanger.LeadingJunkRefused | pwa/src/ble/communication.ts:29-34 | a well-formed frame behind one junk byte gives null, although parseResponse would find it |
| Exchanger.Link.ReadValue | pwa/src/ble/communication.ts:26-27 | readValue takes the next scripted result and fails past the end of the script |
| Exchanger.Link.SendCommandStrict | pwa/src/ble/communication.ts:5-58 | throws before any I/O without the command characteristic; otherwise writes buildCommand once; a failed write throws with no read; otherwise settles and consumes reads as Exchange says |
| Exchanger.Link.TestCommunication | pwa/src/ble/communication.ts:60-93 | sends GET_INFO; no info without the characteristic or when the write fails; otherwise the info decoded from the reply |
| Exchanger.ByteOr | pwa/src/ble/communication.ts:70-75 | `payload[i] \|\| fallback`: a present non-zero byte, else the fallback (missing and zero bytes alike) |
| Exchanger.U32LE | pwa/src/ble/communication.ts:76-77 | getUint32(offset, true) is below 2^32 |
| Exchanger.DecodeText | pwa/src/ble/communication.ts:79 | ASCII bytes decode to themselves, one character each, as TextDecoder gives them; other bytes become U+FFFD in the model (see Left out) |
| Exchanger.CutAtNul | pwa/src/ble/communication.ts:79 | replace(/\0.*$/, '') keeps a prefix cut at the first NUL followed by no line terminator, and cuts nothing when there is none |
| Exchanger.DecodeDeviceInfo | pwa/src/ble/communication.ts:69-80 | fails exactly for a 9- or 13-byte payload (getUint32 out of range); version, major, minor and button count are never 0; a payload of at most 16 bytes gives the name "mDeck" |
| Exchanger.DeviceInfoOfReply | pwa/src/ble/communication.ts:64-92 | info only from a frame that parses with error NONE and a payload after the error code |
| Exchanger.ZeroFieldsDefaulted | pwa/src/ble/communication.ts:70-74 | reported zeros read back as protocol version 1, firmware 1.2 and 15 buttons |
| Exchanger.DecodeDeviceInfoAt14 | pwa/src/ble/communication.ts:78-79 | the name read at the firmware's offset 14: same failure cases, and "mDeck" for a payload of at most 14 bytes |
| FwLayout.PackButton | main/armdeck_protocol.h:84-94 | the 16-byte image of armdeck_button_t: id, action type, key code, modifier, r, g, b, reserved, then the 8 label bytes |
| FwLayout.UnpackButton | main/armdeck_protocol.h:84-94 | any 16 bytes read as an armdeck_button_t give a well-formed button |
| FwLayout.ButtonImageRoundTrip | main/armdeck_protocol.h:84-94 | a 16-byte image read as a button and written back is the same image, and a button written and read back is the same button |
| FwLayout.PackButtons | main/armdeck_protocol.h:97-102 | the button array occupies 16 bytes per button |
| FwLayout.PackConfig | main/armdeck_protocol.h:97-102 | armdeck_config_t occupies 244 bytes |
| FwLayout.UnpackConfig | main/armdeck_protocol.h:97-102 | any 244-byte image read as armdeck_config_t gives a configuration of 15 well-formed buttons |
| FwLayout.PackedButtonAt | main/armdeck_protocol.h:97-102 | button i of a packed configuration is the image of that button at offset 4 + 16i |
| FwLayout.ConfigImageRoundTrip | main/armdeck_protocol.c:178 | a 244-byte image installed by memcpy and sent back by GET_CONFIG is the same image |
| FwLayout.ConfigValueRoundTrip | main/armdeck_protocol.h:97-102 | a configuration written and read back is unchanged |
| FwLayout.PackDeviceInfo | main/armdeck_protocol.h:71-81 | the 30-byte armdeck_device_info_t: uptime and free heap little-endian at offsets 6 and 10, the name at offset 14 |
| FwLayout.LayoutSizes | main/armdeck_protocol.h:97-102 | the 244-byte configuration plus the error byte fits the one-byte length field, and its reply fits the 256-byte buffer |
| FwProtocol.Parse | main/armdeck_protocol.c:45-86 | a packet exactly when the frame has at least 5 bytes, magic AD DC, length 5 + length byte and a matching XOR checksum; the payload is absent exactly when the length byte is 0; checked in that order, fewer than 5 bytes give INVALID_SIZE, a bad magic INVALID_ARG, a wrong length INVALID_SIZE and a checksum mismatch INVALID_CRC |
| FwProtocol.Checksum | main/armdeck_protocol.c:37-43 | the loop computes the XOR of the first len bytes |
| FwProtocol.BuildResponse | main/armdeck_protocol.c:88-125 | empty exactly when 6 + payload length exceeds max_len; otherwise AD DC cmd (1 + n) mod 256, error, payload, checksum |
| FwProtocol.BuildResponseXorsToZero | main/armdeck_protocol.c:120-122 | every built response XORs to 0 over all its bytes |
| FwProtocol.BuildResponseInto | main/armdeck_protocol.c:88-125 | the bytes written to the output buffer are the response, within max_len, and the rest of the buffer is untouched |
| FwProtocol.DefaultButtons | main/armdeck_protocol.c:13-26 | twelve well-formed buttons, slot i holding id i |
| FwProtocol.WithDefaults | main/armdeck_protocol.c:127-136 | slots 0..11 become the defaults; version, count, reserved and slots 12..14 are kept |
| FwProtocol.Dispatch | main/armdeck_protocol.c:262-318 | every command keeps the configuration well formed |
| FwProtocol.Protocol.constructor | main/armdeck_protocol.c:29-35 | version 1, 12 buttons, zeroed slots, not initialised |
| FwProtocol.Protocol.LoadConfig | main/armdeck_protocol.c:127-136 | installs the defaults and sets the initialised flag |
| FwProtocol.Protocol.HandleCommand | main/armdeck_protocol.c:262-318 | new state, return code and bytes written agree with Dispatch; a restart is requested exactly for RESTART |
| FwProtocol.Protocol.HandleSetConfig | main/armdeck_protocol.c:169-187 | agrees with Dispatch for SET_CONFIG |
| FwProtocol.Protocol.HandleGetButton | main/armdeck_protocol.c:189-209 | agrees with Dispatch for GET_BUTTON and changes no state |
| FwProtocol.Protocol.HandleSetButton | main/armdeck_protocol.c:211-237 | agrees with Dispatch for SET_BUTTON |
| FwProtocol.Protocol.HandleTestButton | main/armdeck_protocol.c:239-260 | agrees with Dispatch for TEST_BUTTON and changes no state |
| FwProtocol.Protocol.GetButtonConfig | main/armdeck_protocol.c:320-330 | loads the defaults on first use; NULL for ids 12 and above, otherwise the slot |
| FwProtocol.Protocol.GetConfig | main/armdeck_protocol.c:332-338 | loads the defaults on first use and returns the configuration |
| FwProtocol.ParseFailureAnswer | main/armdeck_protocol.c:268-273 | every parse failure is answered AD DC A1 01 03 D2 (NACK, ERR_CHECKSUM) with the parse error as return code and the state unchanged |
| FwProtocol.InvalidCommandNack | main/armdeck_protocol.c:312-316 | the NACK/ERR_INVALID_CMD frame is AD DC A1 01 01 D0 |
| FwProtocol.UnknownCommandAnswer | main/armdeck_protocol.c:312-316 | a well-formed frame with an unknown command gets that frame and ESP_ERR_NOT_FOUND, state unchanged, no restart |
| FwProtocol.GetButtonBeforeInit | main/armdeck_protocol.c:189-209 | before any GET_CONFIG, GET_BUTTON answers 16 zero bytes and does not load the defaults |
| FwProtocol.ResetConfigEffect | main/armdeck_protocol.c:297-302 | RESET_CONFIG rewrites slots 0..11 only, keeps the rest, and a second reset changes nothing |
| FwProtocol.SetConfigEffect | main/armdeck_protocol.c:169-187 | SET_CONFIG installs exactly the received 244-byte image and rejects every other size with the state unchanged |
| FwProtocol.SetButtonEffect | main/armdeck_protocol.c:211-237 | SET_BUTTON with a valid id replaces exactly that slot with the 16 bytes received |
| FwProtocol.SetButtonLostByFirstGetConfig | main/armdeck_protocol.c:158-237 | before the configuration is initialised, a slot written by SET_BUTTON leaves the flag unset, and the next GET_CONFIG replaces that slot with its default and answers the default |
| FwProtocol.DispatchLoadingFirst | main/armdeck_protocol.c:127-237 | the corrected dispatcher: after SET_CONFIG or SET_BUTTON the configuration is marked initialised, and the configuration stays well formed |
| FwProtocol.CorrectedSetButtonSurvivesGetConfig | main/armdeck_protocol.c:158-237 | with the load run before the write, from any state, the slot written by SET_BUTTON is the one the next GET_CONFIG reads back |
| GattService.FallbackNackChecksum | main/armdeck_service.c:222-231 | the fallback frame's last byte 0x6A is not the XOR 0xD0 of the five bytes before it |
| GattService.ErrorFramesLost | main/armdeck_service.c:209-231 | a GET_BUTTON with an id of 12 or more makes the dispatcher build an ERR_INVALID_PARAM frame, and what is stored is the fallback frame instead |
| GattService.Service.constructor | main/armdeck_service.c:28-47 | idle, no handles, no connection, no interface, empty buffers |
| GattService.Service.Init | main/armdeck_service.c:49-58 | idle with both stored lengths 0 |
| GattService.Service.OnRegister | main/armdeck_service.c:60-91 | a successful registration records the interface and moves to CREATING, back to IDLE if creation is refused; a failed one changes nothing |
| GattService.Service.OnCreate | main/armdeck_service.c:134-141 | a successful creation records the handle and moves to STARTING |
| GattService.Service.OnAddChar | main/armdeck_service.c:149-181 | the first success records the command handles (value handle + 1, 16-bit), every later one the keymap handles and READY |
| GattService.Service.OnWrite | main/armdeck_service.c:183-246 | a write on either command handle runs the dispatcher, stores its reply or the fallback and sets the pending restart exactly when the dispatcher asks for one; a keymap write of at most 256 bytes replaces the keymap value; other writes change nothing, the pending restart included |
| GattService.Service.WriteCommand | main/armdeck_service.c:191-233 | the new protocol state is the dispatcher's and the stored reply is its response when it succeeded with bytes, the fallback otherwise; a restart becomes pending when the dispatcher requests one and an already pending one stays pending |
| GattService.Service.WriteKeymap | main/armdeck_service.c:233-241 | a value of at most 256 bytes becomes the keymap value; a longer one changes nothing |
| GattService.Service.OnRead | main/armdeck_service.c:259-285 | the stored command reply for the command handles, the stored keymap for the keymap handles, nothing otherwise |
| GattService.Service.OnConnect | main/armdeck_service.c:295-301 | records the connection id |
| GattService.Service.OnDisconnect | main/armdeck_service.c:303-306 | clears the connection id to 0xFFFF |
| GattService.Service.IsReady | main/armdeck_service.c:313-315 | true exactly in the READY state |
| GattService.Service.SendNotification | main/armdeck_service.c:317-330 | INVALID_STATE without a connection or an interface, otherwise what the stack returns |
| CrossChecks.ConstantsAgree | pwa/src/ble/constants.ts:10-51 | client and firmware agree on the magic bytes, protocol version, every command code and every action type |
| CrossChecks.ErrorCodesPartlyNamed | pwa/src/ble/constants.ts:38-43 | the client names error codes 0..3 as the firmware does and has no name for LENGTH, BUSY or MEMORY |
| CrossChecks.CommentedMagicDiffers | main/armdeck_protocol.h:15 | the magic 0xAD 0xEC written in the header comments is not the 0xAD 0xDC both sides use |
| CrossChecks.JsonOpcodesClash | components/armdeck_service/include/armdeck_config.h:24-26 | the JSON store's READ_CONFIG (0x50) is the protocol build's RESTART, and its RESET_CONFIG (0x52) is not the 0x22 the client and the protocol build use |
| CrossChecks.FirmwareParsesClientFrame | pwa/src/ble/utils.ts:18-35 | the firmware parses every frame the client builds, with at most 255 payload bytes, into its command, length and payload |
| CrossChecks.ResponseIsCommandFrame | main/armdeck_protocol.c:88-125 | a firmware response is exactly the client frame whose payload is the error byte followed by the data |
| CrossChecks.ClientParsesFirmwareResponse | pwa/src/ble/utils.ts:37-84 | the client parses every firmware response back into its command, error code and data |
| CrossChecks.SetThenGetButton | main/armdeck_protocol.c:189-237 | SET_BUTTON then GET_BUTTON for the same id returns the 16 bytes written |
| CrossChecks.ClientRecordIsFirmwareButton | pwa/src/ble/utils.ts:191-202 | the client's 16-byte button record is read by the firmware as id, action type and code, zero modifier, zero reserved and the label bytes |
| CrossChecks.DefaultColourAgrees | pwa/src/ble/utils.ts:10-16 | the client's default colour #607D8B is the firmware's default blue-grey 60 7D 8B |
| CrossChecks.InfoPayloadBytes | main/armdeck_protocol.c:138-156 | the info payload reports protocol 1, firmware 1.2.0, 12 buttons, battery 100 and "ArmDeck" NUL-padded at offset 14 |
| CrossChecks.InfoPayloadDecoded | pwa/src/ble/communication.ts:69-80 | the client decodes the firmware's info payload with every number intact and the name "mDeck" |
| CrossChecks.GetInfoAsDecoded | pwa/src/ble/communication.ts:64-92 | a GET_INFO reply as the client sees it: numbers intact, 12 buttons, name "mDeck" |
| CrossChecks.GetInfoDecodedAt14 | pwa/src/ble/communication.ts:78-79 | read at offset 14, the same payload yields the name "ArmDeck" |
| CrossChecks.FallbackNackRejected | main/armdeck_service.c:225-230 | the fallback frame passes the client's validity test but parseResponse rejects it |
| CrossChecks.CorrectedNackParsed | main/armdeck_protocol.c:312-316 | the dispatcher's own invalid-command frame parses as NACK with ERR_INVALID_CMD |
| BinaryStore.StoreDefaults | main/armdeck_config.c:14-30 | fifteen well-formed buttons with slot i holding id i, the first twelve those of the protocol module |
| BinaryStore.DefaultConfig | main/armdeck_config.c:32-40 | the factory configuration is a well-formed 15-button configuration |
| BinaryStore.Validate | main/armdeck_config.c:175-221 | true exactly for a non-NULL configuration of version 1 with 15 buttons, each carrying its own index as id, an action type of at most CUSTOM and a NUL in its label |
| BinaryStore.SaveResult | main/armdeck_config.c:100-125 | a save succeeds exactly when open, set and commit all succeed |
| BinaryStore.LoadNotFoundOnlyFromOpen | main/armdeck_config.c:53-98 | a load reports NOT_FOUND exactly when opening the namespace did; a missing blob is reported as ESP_OK |
| BinaryStore.LoadInvalidOverwrites | main/armdeck_config.c:68-88 | a blob that reads but fails validation is installed before the load reports INVALID_STATE |
| BinaryStore.DefaultsValid | main/armdeck_config.c:14-30 | the factory configuration passes validation |
| BinaryStore.SetButtonCanInvalidate | main/armdeck_config.c:166-173 | set_button copies a button without checking its id, so it can leave a configuration that fails validation |
| BinaryStore.Store.constructor | main/armdeck_config.c:10-11 | zeroed configuration, not initialised, whatever blob NVS holds |
| BinaryStore.Store.Save | main/armdeck_config.c:100-125 | the blob becomes the current configuration exactly when all three steps succeed |
| BinaryStore.Store.Load | main/armdeck_config.c:53-98 | result and new configuration are those of LoadResult and LoadedConfig |
| BinaryStore.Store.Init | main/armdeck_config.c:32-51 | always ESP_OK and initialised; the configuration is the loaded one over the defaults; the defaults are saved only after a NOT_FOUND load |
| BinaryStore.Store.Reset | main/armdeck_config.c:127-137 | installs the factory configuration, which validates, and saves it |
| BinaryStore.Store.Get | main/armdeck_config.c:139-144 | NULL until initialised, the configuration afterwards |
| BinaryStore.Store.Set | main/armdeck_config.c:146-157 | a NULL, uninitialised or invalid request gives INVALID_ARG and changes nothing; a valid one is installed and saved |
| BinaryStore.Store.GetButton | main/armdeck_config.c:159-164 | NULL until initialised or for ids of 15 and above, otherwise the slot |
| BinaryStore.Store.SetButton | main/armdeck_config.c:166-173 | INVALID_ARG and nothing changed without initialisation, button or a valid id; otherwise exactly that slot is replaced and the configuration saved |
| JsonStore.CText | components/armdeck_service/armdeck_config.c:413-414 | the C string of a char array holds no NUL and is no longer than the array |
| JsonStore.CopyTruncated | components/armdeck_service/armdeck_config.c:413-414 | strncpy of n - 1 characters plus the final NUL always yields a terminated string that fits the array |
| JsonStore.NulFreeStrLen | components/armdeck_service/armdeck_config.c:413-414 | strlen of a NUL-free string is its length |
| JsonStore.CopyShortWhole | components/armdeck_service/armdeck_config.c:413-414 | a NUL-free string shorter than the array is copied whole |
| JsonStore.Validate | components/armdeck_service/armdeck_config.c:194-250 | true exactly for a non-NULL configuration whose version, checksum and buttons all pass |
| JsonStore.FirstMappingFound | components/armdeck_service/armdeck_config.c:252-268 | a lookup yields an entry of the table carrying the name, and fails exactly when no entry carries it |
| JsonStore.FirstMappingAt | components/armdeck_service/armdeck_config.c:258-264 | a lookup stops at the first entry carrying the name |
| JsonStore.ActionNamesDistinct | components/armdeck_service/armdeck_config.c:16-29 | the twelve action names are pairwise distinct |
| JsonStore.LookupEachName | components/armdeck_service/armdeck_config.c:16-29 | looking up any table name yields its own entry |
| JsonStore.ConsumerEntries | components/armdeck_service/armdeck_config.c:16-29 | the first seven entries are Consumer page usages, the last five Keyboard page usages |
| JsonStore.GetHidCode | components/armdeck_service/armdeck_config.c:252-268 | INVALID_ARG for a NULL argument; a known name writes its code and kind; an unknown one gives NOT_FOUND and leaves the outputs alone |
| JsonStore.DefaultEntryFits | components/armdeck_service/armdeck_config.c:32-45 | every default label, action and colour fits its array, and every colour is '#' and six digits |
| JsonStore.DefaultJButtons | components/armdeck_service/armdeck_config.c:32-45 | twelve buttons that each pass the per-button checks, with the table's action names in table order |
| JsonStore.DefaultsFit | components/armdeck_service/armdeck_config.c:32-45 | every default entry fits its arrays |
| JsonStore.DefaultJConfig | components/armdeck_service/armdeck_config.c:160-181 | the reset configuration is well formed |
| JsonStore.DefaultsValid | components/armdeck_service/armdeck_config.c:160-181 | the reset configuration validates whatever the CRC function, and each default action looks up to its own entry |
| JsonStore.DefaultLabelText | components/armdeck_service/armdeck_config.c:416 | "Button i+1" is at most 9 characters and holds no NUL |
| JsonStore.CaptionField | components/armdeck_service/armdeck_config.c:410-417 | the label always fits its 16-element array |
| JsonStore.ActionField | components/armdeck_service/armdeck_config.c:419-426 | the action always fits its 32-element array |
| JsonStore.KnownIffFound | components/armdeck_service/armdeck_config.c:437-443 | get_hid_code answers ESP_OK exactly for the names of the table |
| JsonStore.CheckedAction | components/armdeck_service/armdeck_config.c:437-443 | the checked action still fits its array |
| JsonStore.ColorField | components/armdeck_service/armdeck_config.c:428-435 | the colour always fits its 8-element array |
| JsonStore.ParseButton | components/armdeck_service/armdeck_config.c:400-443 | every parsed entry is well formed and all three strings terminated |
| JsonStore.ParsedConfig | components/armdeck_service/armdeck_config.c:352-459 | any configuration produced is well formed and validates |
| JsonStore.FillButtons | components/armdeck_service/armdeck_config.c:392-444 | the loop succeeds exactly when every entry is an object, and fills slot k from entry k |
| JsonStore.ParsedConfigOf | components/armdeck_service/armdeck_config.c:446-455 | with twelve objects, the result is the checksummed configuration when it validates and nothing otherwise |
| JsonStore.ParseJsonInput | components/armdeck_service/armdeck_config.c:352-459 | NULL input gives INVALID_ARG; otherwise the result is ParsedConfig; ESP_OK exactly when a configuration is produced |
| JsonStore.ColorAccepted | components/armdeck_service/armdeck_config.c:428-435 | a colour is accepted exactly when it starts with '#' and has at least 7 characters before any NUL |
| JsonStore.ParsedEntryValid | components/armdeck_service/armdeck_config.c:400-443 | a parsed entry validates exactly when its id (or index) is its index and its colour is accepted |
| JsonStore.ParseAcceptsIff | components/armdeck_service/armdeck_config.c:378-455 | a document parses exactly when it has twelve objects, its version (or the default 1) is 1, and every entry is accepted |
| JsonStore.ParseDefaults | components/armdeck_service/armdeck_config.c:402-435 | missing fields take the index, "Button i+1", KEY_F20 and #607D8B |
| JsonStore.UnknownActionReplaced | components/armdeck_service/armdeck_config.c:437-443 | an action name the table does not know is stored as KEY_F20 |
| JsonStore.KnownActionKept | components/armdeck_service/armdeck_config.c:437-443 | a known action name is stored as given |
| JsonStore.JsonConfigStore.constructor | components/armdeck_service/armdeck_config.c:12-13 | zeroed configuration, not initialised |
| JsonStore.JsonConfigStore.SaveToNvs | components/armdeck_service/armdeck_config.c:122-158 | an invalid configuration is refused before NVS is touched; a valid one is stored exactly when all three steps succeed |
| JsonStore.JsonConfigStore.LoadFromNvs | components/armdeck_service/armdeck_config.c:87-120 | a missing blob gives NOT_FOUND; a blob that reads is installed before it is validated, and INVALID_STATE reports one that fails |
| JsonStore.JsonConfigStore.Init | components/armdeck_service/armdeck_config.c:47-85 | the answer is InitResult; an NVS init failure is returned unchanged; a NOT_FOUND load installs the defaults and answers ESP_OK whatever the save gives, the flash taking the defaults only when all three save steps succeed; a stored blob becomes the configuration, ESP_OK exactly when it validates; other load failures are returned with configuration and flash unchanged; initialised exactly when ESP_OK |
| JsonStore.JsonConfigStore.HandleBleCommand | components/armdeck_service/armdeck_config.c:461-602 | missing outputs give INVALID_ARG, everything else ESP_OK with the outcome in the text; READ on an uninitialised store first runs init, answering "Config not initialized" when init fails and otherwise the out-of-memory, generation and size checks, with configuration and flash as init leaves them; WRITE installs and stores only a parsed and saved configuration; RESET installs the defaults; unknown commands change nothing |
| JsonStore.InitResult | components/armdeck_service/armdeck_config.c:47-85 | init's answer: the NVS init failure, ESP_OK after a NOT_FOUND load, ESP_OK or INVALID_STATE for a stored blob as it validates |
| JsonStore.JsonConfigStore.GetCurrent | components/armdeck_service/armdeck_config.c:605-611 | NULL until initialised, the configuration afterwards |
| Matrix.StepFiresIff | main/button_matrix.c:88-104 | the callback fires exactly when the reading repeats the last one, has lasted more than 50 ms (32-bit wrapping difference) and differs from the debounced state |
| Matrix.StepStateChangesIffFires | main/button_matrix.c:91-99 | the debounced state changes exactly when the callback fires, and then becomes the reading |
| Matrix.NewReadingOnlyRecorded | main/button_matrix.c:88-90 | a reading that differs from the last one only records it with its time: no event, state kept |
| Matrix.PressNeedsTwoScans | main/button_matrix.c:88-104 | from a released record one pressed reading never fires; a second one more than 50 ms later does |
| Matrix.DeliveredAppend | main/button_matrix.c:97-99 | the delivered invocations of two runs of events are those of each, in order |
| Matrix.ScanEventsSound | main/button_matrix.c:75-109 | every event of a scan names a scanned button whose step fires, with its reading |
| Matrix.ScanEventsComplete | main/button_matrix.c:75-109 | a button fires in a scan exactly when its step fires |
| Matrix.ButtonMatrix.Tracks | main/button_matrix.c:27-29 | the twelve records, by id |
| Matrix.ButtonMatrix.constructor | main/button_matrix.c:27-36 | every record released, released, 0; no task, not scanning, no callback |
| Matrix.ButtonMatrix.Init | main/button_matrix.c:57-62 | every record back to released, released, 0 |
| Matrix.ButtonMatrix.SetCallback | main/button_matrix.c:68-70 | records whether a callback is installed |
| Matrix.ButtonMatrix.StepButton | main/button_matrix.c:84-104 | button id takes one debounce step, the others are untouched, and its event is delivered when a callback is set |
| Matrix.ButtonMatrix.ScanButton | main/button_matrix.c:83-105 | visiting one button advances the scan by one button |
| Matrix.ButtonMatrix.Scan | main/button_matrix.c:72-110 | every record takes one debounce step and the callback receives the firing buttons in id order |
| Matrix.ButtonMatrix.Start | main/button_matrix.c:124-141 | INVALID_STATE while a task exists; otherwise scanning starts, and a failed task creation gives ESP_FAIL and clears the flag again |
| Matrix.ButtonMatrix.Stop | main/button_matrix.c:143-157 | INVALID_STATE without a task; otherwise scanning stops and the handle is cleared |
| Matrix.ButtonMatrix.GetButtonState | main/button_matrix.c:159-164 | false out of range, the debounced state otherwise |
| Matrix.ButtonMatrix.TestButton | main/button_matrix.c:166-179 | a press then a release of the id through the callback, only for an id in range with a callback set |
| PadMatrix.PadStepIff | components/button_matrix/button_matrix.c:85-98 | a step fires exactly when the reading is new and more than 50 ms have passed; otherwise the record is unchanged; the colour is never touched |
| PadMatrix.PadStepKeepsInSync | components/button_matrix/button_matrix.c:88-90 | pressed and last_state, once equal, stay equal, and a step fires exactly when pressed changes |
| PadMatrix.OneStepVersusTwoStep | components/button_matrix/button_matrix.c:85-86 | from a released record one pressed reading fires at once here, while the protocol build's two-step debounce only records it |
| PadMatrix.PadEventsSound | components/button_matrix/button_matrix.c:70-104 | every event of a scan names a scanned button whose step fires, with its new pressed state |
| PadMatrix.ScanStates | components/button_matrix/button_matrix.c:70-104 | after a scan every record is its own step's result |
| PadMatrix.ScanKeepsInSync | components/button_matrix/button_matrix.c:85-113 | scans and colour changes keep pressed equal to last_state in every record |
| PadMatrix.Pad.constructor | components/button_matrix/button_matrix.c:18-21 | every record zeroed, no callback |
| PadMatrix.Pad.Init | components/button_matrix/button_matrix.c:54-58 | every record zeroed and the BLE event callback installed |
| PadMatrix.Pad.SetCallback | components/button_matrix/button_matrix.c:131-134 | records whether a callback is installed |
| PadMatrix.Pad.StepButton | components/button_matrix/button_matrix.c:79-98 | button id takes one step, the others are untouched, and its event is delivered when a callback is set |
| PadMatrix.Pad.ScanButton | components/button_matrix/button_matrix.c:78-99 | visiting one button advances the scan by one button |
| PadMatrix.Pad.Scan | components/button_matrix/button_matrix.c:65-104 | the records become ScanStates of the old ones and the callback receives the firing buttons in id order |
| PadMatrix.Pad.SetColor | components/button_matrix/button_matrix.c:107-119 | INVALID_ARG and nothing changed for ids of 16 and above; otherwise only that button's colour changes |
| PadMatrix.Pad.IsPressed | components/button_matrix/button_matrix.c:122-128 | false out of range, the stored flag otherwise |
| MainBuild.ClientNamesOnlyLastFive | main/armdeck_main.c:53-57 | the web client has no name for the usages of buttons 0..6 (F13..F19 here), while buttons 7..11 are named, from F20 |
| MainBuild.KeyReportShape | main/armdeck_main.c:211-227 | a key report has eight bytes, only byte 2 can be non-zero, and it holds the key exactly on a press |
| MainBuild.EventReportsSnoc | main/armdeck_main.c:229-244 | the reports of one more event are those of the event, appended |
| MainBuild.ScanReportsFollowEvents | main/armdeck_main.c:246-277 | a scan of this build sends exactly the reports the callback of main/button_matrix.c would receive as events for the same readings |
| MainBuild.ScanStepsAlike | main/armdeck_main.c:257-271 | button n-1 adds to a scan's reports exactly the reports of the events it adds |
| MainBuild.ButtonReportsFollowStep | main/armdeck_main.c:262-270 | one button's step adds to the reports exactly what its events add |
| MainBuild.TestReportsShape | main/armdeck_main.c:477-488 | the test command sends 2n reports: the press of F(13+k) at 2k and the all-zero release at 2k+1 |
| MainBuild.SentIfAppend | main/armdeck_main.c:211-215 | the reports handed to esp_hidd_send_keyboard_value over two runs are those of each run, in order |
| MainBuild.ArmDeckMain.Tracks | main/armdeck_main.c:60-62 | the twelve records, by id |
| MainBuild.ArmDeckMain.constructor | main/armdeck_main.c:60-71 | every record released and unchanged since 0, not connected, connection id 0, nothing sent |
| MainBuild.ArmDeckMain.SendHidKey | main/armdeck_main.c:211-227 | nothing unless connected with a non-zero connection id; otherwise one key report |
| MainBuild.ArmDeckMain.HandleButtonAction | main/armdeck_main.c:229-244 | ids outside 0..11 send nothing; otherwise the button's key is pressed or released |
| MainBuild.ArmDeckMain.SendKeepAlive | main/armdeck_main.c:290-296 | an empty report when connected, nothing otherwise |
| MainBuild.ArmDeckMain.StepButton | main/armdeck_main.c:258-271 | button id takes one debounce step, the others are untouched, and its report is sent when it fires |
| MainBuild.ArmDeckMain.ScanButton | main/armdeck_main.c:257-272 | visiting one button advances the scan by one button |
| MainBuild.ArmDeckMain.Scan | main/armdeck_main.c:246-277 | every record takes the two-step debounce and the firing buttons' reports are sent in id order |
| MainBuild.ArmDeckMain.TestAllButtons | main/armdeck_main.c:477-488 | press and release of every button's key, in id order, when connected |
| MainBuild.ArmDeckMain.HandleWrite | main/armdeck_main.c:460-499 | only the first byte of a non-empty value on the command characteristic counts: 0x01 restarts and never answers, 0x10 sends a keep-alive, 0x30 the button test, anything else nothing; a requested response is sent otherwise |
| Advertising.RequestOnlyWhenBothConfigured | main/armdeck_ble.c:70-104 | advertising is requested only when, after the event, both configurations are done, and the state then follows the request's result |
| Advertising.StartedOnlyByStartComplete | main/armdeck_ble.c:106-119 | only a successful ADV_START_COMPLETE makes the state STARTED; a failed one and ADV_STOP_COMPLETE make it STOPPED |
| Advertising.StartNeedsBothCompletions | main/armdeck_ble.c:181-207 | after a start, advertising is requested exactly when the second of the two completions arrives, in either order; a failed completion changes nothing |
| Advertising.Ble.constructor | main/armdeck_ble.c:10-17 | STOPPED, no flags, no callbacks, no interface, nothing forwarded |
| Advertising.Ble.StartIfConfigured | main/armdeck_ble.c:75-84 | a start request only once both flags are set |
| Advertising.Ble.HandleGapEvent | main/armdeck_ble.c:68-129 | the state follows GapStep, and every event is then forwarded to the user callback when one is registered |
| Advertising.Ble.HandleGattsEvent | main/armdeck_ble.c:132-146 | a successful registration stores the interface; every event goes to the service handler, then to the user callback |
| Advertising.Ble.Init | main/armdeck_ble.c:148-179 | the four registration steps run in turn; the first failure is returned and stops the rest; ESP_OK exactly when all succeed |
| Advertising.Ble.StartAdvertising | main/armdeck_ble.c:181-209 | INVALID_STATE unless STOPPED; otherwise both flags cleared, the first configure failure returned, and STARTING on success |
| Advertising.Ble.StopAdvertising | main/armdeck_ble.c:211-226 | INVALID_STATE unless STARTED, otherwise the stop call's result; the state is left to ADV_STOP_COMPLETE |
| Advertising.Ble.GetAdvState | main/armdeck_ble.c:228-230 | the current state |
| Advertising.Ble.RegisterGapCallback | main/armdeck_ble.c:232-234 | records whether a GAP user callback is registered, leaving the GATTS one as it was |
| Advertising.Ble.RegisterGattsCallback | main/armdeck_ble.c:236-238 | records whether a GATTS user callback is registered, leaving the GAP one as it was |
| Synchronizer.LoadedSlotClean | pwa/src/ble/useBle.ts:97-131 | every slot a load stores carries its index as id and is clean, whatever the reply |
| Synchronizer.LoadRestoresSavedSlot | pwa/src/ble/useBle.ts:47-113 | a slot saved with buildButtonPayload and answered with that record loads back as saved (colour digits in lower case), for a short ASCII label and a restorable action |
| Synchronizer.NumButtons | pwa/src/ble/useBle.ts:86 | num_buttons when non-zero, otherwise 15 |
| Synchronizer.Outcomes | pwa/src/ble/useBle.ts:92-95 | k calls give k outcomes |
| Synchronizer.GetButtonFrames | pwa/src/ble/useBle.ts:92-95 | the load writes one GET_BUTTON frame per button |
| Synchronizer.LoadProgressStep | pwa/src/ble/useBle.ts:92-131 | one more GET_BUTTON call with its outcome stored at slot i advances the load by one button |
| Synchronizer.LoadedSlotsClean | pwa/src/ble/useBle.ts:86-135 | a finished load leaves exactly n slots, each clean and carrying its own index |
| Synchronizer.NoneReplyAccepted | pwa/src/ble/useBle.ts:50-69 | a reply built with error NONE is accepted and one with another error is refused |
| Synchronizer.DirtyIndices | pwa/src/ble/useBle.ts:352-354 | lists only dirty slots, in increasing index order |
| Synchronizer.DirtyIndicesComplete | pwa/src/ble/useBle.ts:352-354 | every dirty slot is listed |
| Synchronizer.UpdatedSlotIsSaved | pwa/src/ble/useBle.ts:322-328 | a slot just updated is among those the next saveConfig sends |
| Synchronizer.DirtyIndicesEmpty | pwa/src/ble/useBle.ts:356-360 | the list is empty exactly when no slot is dirty |
| Synchronizer.ClearingChangesFlagsOnly | pwa/src/ble/useBle.ts:55-59 | clearing one slot's flag changes nothing but flags and makes no clean slot dirty |
| Synchronizer.SaveProgressStep | pwa/src/ble/useBle.ts:364-367 | saving the next listed slot advances the save by one slot |
| Synchronizer.PayloadIgnoresDirty | pwa/src/ble/utils.ts:191-202 | a slot's payload and frame do not depend on its dirty flag |
| Synchronizer.Sync.constructor | pwa/src/ble/useBle.ts:11-31 | 15 default slots, nothing connected, nothing pending |
| Synchronizer.Sync.UpdateButton | pwa/src/ble/useBle.ts:316-340 | indices outside 0..14 change nothing; otherwise the partial is merged into that slot, which becomes dirty, the collection is dirty, and the auto-save is re-armed for it only when fully connected, holding the slots as they were before the edit |
| Synchronizer.Sync.SaveButtonToDevice | pwa/src/ble/useBle.ts:36-75 | as the closure of one render: nothing without that render's full connection, a valid index, a command method and a slot in that render's view; the payload comes from the view; an unbuildable payload or a refused reply sets the error; an accepted one clears that slot's flag in the current slots, sets lastSaved, and clears the collection flag when no other slot of the view is dirty; only flags change and no clean slot becomes dirty |
| Synchronizer.Sync.SendSlot | pwa/src/ble/useBle.ts:48-74 | sends the frame and handles the reply as SlotSent states |
| Synchronizer.Sync.FireAutoSave | pwa/src/ble/useBle.ts:336-338 | as written: the timer is disarmed and the arming render's saveButtonToDevice outcome (ButtonSaved over the pre-edit view) holds for the armed slot: no I/O without a command method, SaveFailed for an unbuildable payload, otherwise the SET_BUTTON frame of the pre-edit slot and its reply's effect on the current flags |
| Synchronizer.AutoSaveLosesEdit | pwa/src/ble/useBle.ts:316-338 | slot 0 captioned "A" edited to "B": the auto-save sends a payload that reads back as "A", while an accepted reply leaves the slot "B" and clean, with nothing left to save |
| Synchronizer.Sync.FireAutoSaveCurrent | pwa/src/ble/useBle.ts:36-75 | corrected: saves the armed slot as it stands when the timer fires; any frame sent is the SET_BUTTON frame of that slot as it is afterwards |
| Synchronizer.Sync.SaveStep | pwa/src/ble/useBle.ts:364-367 | one iteration saves the next listed slot |
| Synchronizer.Sync.SaveDirty | pwa/src/ble/useBle.ts:364-367 | the loop saves every listed slot in order |
| Synchronizer.Sync.LoadButtons | pwa/src/ble/useBle.ts:92-132 | the loop loads every button in order |
| Synchronizer.Sync.LoadButton | pwa/src/ble/useBle.ts:93-131 | one iteration loads button i |
| Synchronizer.Sync.SaveConfig | pwa/src/ble/useBle.ts:342-380 | without full connection an error and no I/O; with no dirty slot no I/O and lastSaved untouched; otherwise SET_BUTTON for every dirty slot in index order, then the collection is clean and lastSaved set whatever the replies |
| Synchronizer.Sync.LoadConfiguration | pwa/src/ble/useBle.ts:77-146 | ignored while a load runs; otherwise num_buttons (or 15) slots, each loaded from its reply, the collection clean, lastSaved set and the guard released |
| Synchronizer.Sync.FetchButtonConfiguration | pwa/src/ble/useBle.ts:148-151 | nothing without a device and its info; with both (and no load running) every button is loaded as LoadProgress says: GET_BUTTON frames 0..n-1 in order, slot i the loaded result of the i-th reply, the collection clean with lastSaved set |
| Synchronizer.Sync.ResetConfig | pwa/src/ble/useBle.ts:382-416 | without full connection or command method an error and no I/O; an accepted reply clears the collection flag and, with a device and its info, reloads every button after the RESET_CONFIG frame (LoadProgress), while without info the slots are kept; a refused one sets the error and keeps the slots; a null one changes nothing |
| Synchronizer.Sync.CleanupConnection | pwa/src/ble/useBle.ts:156-166 | every connection flag, the device, its info and the command method cleared; the slots and a pending auto-save kept |
| Synchronizer.Sync.ConnectToServices | pwa/src/ble/useBle.ts:173-246 | fully connected exactly when the services and the command characteristic were found, and only then are the command method and the device installed; otherwise both flags drop, the connection error is set and the old method and device stay |
| Synchronizer.Sync.RunSetup | pwa/src/ble/useBle.ts:216-232 | GET_INFO first; on success the info is stored and the configuration loaded with it, otherwise an error and the slots unchanged |
| DeviceConfigHook.DefaultButtonsShape | pwa/src/hooks/useDeviceConfig.ts:45-58 | the default collection has twelve clean slots whose ids are their indices |
| DeviceConfigHook.Updated | pwa/src/hooks/useDeviceConfig.ts:232-248 | an index outside 0..11 (or past the slots) leaves the slots as they are; otherwise only that slot changes, to the merge of the partial, and is marked dirty |
| DeviceConfigHook.ButtonAt | pwa/src/hooks/useDeviceConfig.ts:253-258 | a slot exactly for an index in 0..11 that exists, and that slot |
| DeviceConfigHook.UpdateThenGet | pwa/src/hooks/useDeviceConfig.ts:232-258 | an update is read back dirty with the partial's label and action; every other index reads as before |
| DeviceConfigHook.UpdateAddsOneDirty | pwa/src/hooks/useDeviceConfig.ts:238-246 | updating a clean slot adds exactly one dirty slot, a dirty one none |
| DeviceConfigHook.CommandTextsShareFirstByte | pwa/src/hooks/useDeviceConfig.ts:108-229 | the three command texts are four bytes each, all beginning with the byte 0x30 that the protocol build's write handler reads as its button test |
| DeviceConfigHook.OpcodesAreDistinct | pwa/src/hooks/useDeviceConfig.ts:108-229 | the opcodes the comments name (0x50, 0x51, 0x52) differ pairwise and none is the button test |
| DeviceConfigHook.AutoSaveUsesMountState | pwa/src/hooks/useDeviceConfig.ts:72-82 | the auto-save keeps the connection flag of the first render: mounted disconnected it would fail while connected, mounted connected it would succeed while disconnected; both are states the hook reaches only if its useBle instance connected |
| DeviceConfigHook.CorrectedAutoSaveAgreesWithManual | pwa/src/hooks/useDeviceConfig.ts:152-155 | an auto-save consulting the current connection succeeds exactly when a manual save does, and differs from the code as written |
| DeviceConfigHook.Hook.constructor | pwa/src/hooks/useDeviceConfig.ts:60-69 | the default slots, no device information, nothing loading, dirty, saved or failed, no timer armed, and the hook's own useBle instance disconnected with no command characteristic |
| DeviceConfigHook.MountedHookNeverReachesDevice | pwa/src/hooks/useDeviceConfig.ts:60-229 | from the mount, load and reset report not connected, save rethrows with the save error, nothing is written, and an edit leaves the collection dirty with no auto-save armed |
| DeviceConfigHook.Hook.SendCommand | pwa/src/hooks/useBle.ts:169-182 | the command text's bytes are written exactly when the command characteristic exists; nothing is thrown |
| DeviceConfigHook.Hook.LoadConfig | pwa/src/hooks/useDeviceConfig.ts:108-149 | disconnected only the not-connected error; connected, READ_CONFIG is sent and the default slots and fixed device information installed, clean, with lastSaved set |
| DeviceConfigHook.Hook.SaveConfigToDevice | pwa/src/hooks/useDeviceConfig.ts:152-178 | succeeds exactly when connected, and then WRITE_CONFIG is sent |
| DeviceConfigHook.Hook.SaveConfig | pwa/src/hooks/useDeviceConfig.ts:181-198 | rethrows exactly when disconnected, with the save error and nothing written; otherwise the collection is clean and lastSaved set; the slots never change |
| DeviceConfigHook.Hook.ResetConfig | pwa/src/hooks/useDeviceConfig.ts:201-229 | disconnected only the not-connected error; connected, RESET_CONFIG is sent and the default slots installed, clean, with lastSaved set |
| DeviceConfigHook.Hook.UpdateButton | pwa/src/hooks/useDeviceConfig.ts:232-250 | the slots become Updated of the old slots and the collection is dirty exactly when it was or the index is in 0..11 |
| DeviceConfigHook.Hook.GetButtonConfig | pwa/src/hooks/useDeviceConfig.ts:253-258 | the slot ButtonAt gives |
| DeviceConfigHook.Hook.AutoSaveEffect | pwa/src/hooks/useDeviceConfig.ts:85-105 | when dirty and connected the timer is re-armed with the current slots, otherwise left as it was |
| DeviceConfigHook.Hook.FireAutoSave | pwa/src/hooks/useDeviceConfig.ts:72-95 | the timer is disarmed; the outcome follows the first render's connection flag: success cleans the collection and sets lastSaved, failure sets the auto-save error and writes nothing |
| TauriBle.KeptDevicesIff | tauri/src-tauri/src/ble.rs:104-120 | a device is listed exactly when some discovered peripheral is kept and has that id and name |
| TauriBle.NamedDeviceKept | tauri/src-tauri/src/ble.rs:107-111 | any local name containing "StreamDeck" is listed, whatever its services |
| TauriBle.FirmwareDeviceNotListed | tauri/src-tauri/src/ble.rs:107-120 | a peripheral named "ArmDeck" exposing the firmware's own service UUID is not listed |
| TauriBle.NumPieces | tauri/src-tauri/src/ble.rs:269-270 | the number of 20-byte pieces is the ceiling of the length over 20, and zero exactly for an empty image |
| TauriBle.Piece | tauri/src-tauri/src/ble.rs:272-275 | every piece holds 1 to 20 bytes and every piece but the last exactly 20 |
| TauriBle.PiecesArePrefix | tauri/src-tauri/src/ble.rs:272-275 | the first k pieces concatenated are the first min(20k, length) bytes of the image |
| TauriBle.PiecesConcatenate | tauri/src-tauri/src/ble.rs:269-287 | all the pieces concatenated in order are the image itself |
| TauriBle.ProgressMonotone | tauri/src-tauri/src/ble.rs:282-284 | the progress reported never decreases, never passes 100, and is 100 after the last piece |
| TauriBle.UploadStop | tauri/src-tauri/src/ble.rs:272-287 | the upload stops before the end exactly when a write or an emit fails at a piece inside the image |
| TauriBle.LevelOf | tauri/src-tauri/src/ble.rs:300-306 | a level exactly for a successful read of non-empty data |
| TauriBle.BleState.constructor | tauri/src-tauri/src/ble.rs:33-47 | no adapter, device or characteristic, a zero battery level, and a disconnected status |
| TauriBle.BleState.GetBleStatus | tauri/src-tauri/src/ble.rs:314-320 | connected exactly when a device is stored, with no battery level while disconnected |
| TauriBle.BleState.ScanForDevices | tauri/src-tauri/src/ble.rs:76-124 | the adapter is created once and kept; the first failing step's error, PropertiesFailed when any peripheral's properties fail, otherwise exactly the kept peripherals in discovery order |
| TauriBle.BleState.ConnectToDevice | tauri/src-tauri/src/ble.rs:128-205 | the first failing step's error with the stored device and characteristics unchanged; otherwise the device and the characteristics its service has are stored, and the battery is read and its first byte stored and reported |
| TauriBle.BleState.DisconnectDevice | tauri/src-tauri/src/ble.rs:209-228 | with a device a failing disconnect changes nothing; a successful one clears the device, the characteristics and the level; without a device it succeeds and changes nothing |
| TauriBle.BleState.SendOn | tauri/src-tauri/src/ble.rs:232-258 | NotConnected without a device, CharacteristicUnavailable without the characteristic, WriteFailed on a failed write, and otherwise exactly that write recorded |
| TauriBle.BleState.SendFirmwareChunk | tauri/src-tauri/src/ble.rs:262-290 | guarded by the device and the characteristic; otherwise the pieces before the first failure are written and reported in order, and the failure ends the upload with its error |
| TauriBle.BleState.UploadPieces | tauri/src-tauri/src/ble.rs:272-287 | the writes and progress events of the loop are exactly those Uploaded describes |
| TauriBle.BleState.SendPiece | tauri/src-tauri/src/ble.rs:276-284 | the piece is written unless its write fails, and its progress reported unless either step fails |
| TauriBle.BleState.ReadBatteryLevel | tauri/src-tauri/src/ble.rs:294-310 | no level without a device or the characteristic; ReadFailed on a failed read; otherwise the first byte, when there is one, stored and returned |
| Battery.IconCountsThresholds | pwa/src/components/BatteryWidget.tsx:16-24 | the icon shows one quarter for each of the thresholds 12.5, 37.5, 62.5 and 87.5 the level reaches; no level shows the empty icon |
| Battery.ReachedMonotone | pwa/src/components/BatteryWidget.tsx:19-22 | a higher level reaches at least as many thresholds |
| Battery.IconMonotone | pwa/src/components/BatteryWidget.tsx:16-24 | a higher level never selects a lower icon |
| Battery.IntegerBands | pwa/src/components/BatteryWidget.tsx:19-23 | for whole-number levels: full from 88, three quarters 63-87, half 38-62, a quarter 13-37, empty below 13, each in both directions |
| Battery.LowMeansAtMostAQuarter | pwa/src/components/BatteryWidget.tsx:16-33 | a low battery shows at most a quarter; a level shown empty is low; no level is not low |
| Battery.IntegerLow | pwa/src/components/BatteryWidget.tsx:31-33 | for whole-number levels, low exactly at 14 or below |
| Macros.MacrosByCategory | pwa/src/data/macros.ts:53-55 | a macro is listed exactly when it is in allMacros with that category |
| Macros.FilterMembers | pwa/src/data/macros.ts:54 | the filter keeps exactly the entries of the category |
| Macros.FilterAppend | pwa/src/data/macros.ts:50-54 | the filter of a concatenation is the concatenation of the filters, so order is kept |
| Macros.ByCategorySplits | pwa/src/data/macros.ts:50-55 | a category's list is the keyboard, Windows and editable lists that have that category, in that order |
| Macros.CategoryContents | pwa/src/data/macros.ts:10-55 | each tab lists its own constant list in order, and a "media" tab lists nothing |
| Macros.CategoriesCoverMacros | pwa/src/data/macros.ts:58-62 | every macro's category is one of the listed categories, and none is "media" |
| Macros.MacroIdsDistinct | pwa/src/data/macros.ts:10-50 | the ids of allMacros are pairwise distinct |
| Macros.FallbackKeyboardActions | pwa/src/data/macros.ts:18-25 | the Esc, Shift, Ctrl, Alt and Win entries name no key of the key map and are stored as the code of A (0x04) |
| Macros.ShortcutEncodings | pwa/src/data/macros.ts:29-47 | every Windows and editable macro is stored with action type NONE, so pressing it sends nothing |
| Macros.EscapeMacroAsWritten | pwa/src/data/macros.ts:18 | the Esc entry is stored as the code of A and reads back as KEY_A |
| Macros.EscapeMacroCorrected | pwa/src/data/macros.ts:18 | with the key map's name KEY_ESCAPE the entry is stored as Escape (0x29) and reads back as itself |

Where the two firmware builds, the two stores and the two clients disagree,
the model keeps each side as written and states the disagreement:

- Button counts: the protocol build's dispatcher accepts ids below 12
  (`main/armdeck_protocol.c:198`), while its binary store holds 15
  (`main/armdeck_config.c:186`) and the synchronizer's bound is 15
  (`pwa/src/ble/useBle.ts:317`). The JSON store and the hook hold 12.
- Function keys: the stand-alone build sends F13..F24 as usages 0x68..0x73
  of the Keyboard/Keypad page (`MainBuild.ClientNamesOnlyLastFive`). The
  client names F13..F19 as 0x74..0x7A and F20..F24 as 0x6F..0x73, and only
  the action-type byte separates 0x6F/0x70 (F20/F21) from the media
  BRIGHTNESS_UP/DOWN.
- The binary store's init saves the defaults only when `nvs_open` itself
  reports NOT_FOUND. A missing blob is turned into ESP_OK by
  `armdeck_config_load` (`main/armdeck_config.c:90-92`), so in that case
  the defaults stay in memory unsaved (`BinaryStore.LoadNotFoundOnlyFromOpen`).

## Left out

- Radio plumbing: the GATTS, GAP and HID callbacks, service creation, advertising data, attribute tables, the GATT write response and every esp_ble_*/esp_hidd_* call. Their outcomes are parameters; only the state they set is modelled.
- Storage and foreign libraries: NVS open/read/write/commit outcomes are parameters; esp_crc32_le is a function parameter of the JSON store; cJSON input is an already-parsed record with optional fields.
- JsonStore: get_device_info and generate_json_response (`components/armdeck_service/armdeck_config.c:270-350`) are library string formatting; their text is an input of the read command. Bytes after a string's NUL are not represented, and the fixed error texts are copied without a check against response_max_len in the source; the model assumes they fit.
- Hardware and power: GPIO configuration, main/power_button.c (an interrupt flag and deep sleep), esp_restart (recorded as a pending-restart flag) and every delay.
- Pin tables: main/button_matrix.c lists five column pins for its four columns; only MATRIX_COLS = 4 matters to the scan, and pins are not modelled.
- Concurrency and timing: FreeRTOS tasks and vTaskDelay, the desktop shell's mutex held across awaits, its 5 s scan wait and 50 ms piece delay, and JavaScript timers. Timers are an armed field that the caller fires.
- The ordering of GAP events relative to armdeck_ble_start_advertising: each call is taken to complete before its events arrive.
- Logging (console.* and ESP_LOG*) has no behaviour and is left out.
- Web Bluetooth sequencing: requestDevice, connect and service discovery in `pwa/src/ble/useBle.ts:173-302` are reduced to the flags and the command method they install. The connect, disconnect, getDeviceInfo and test helpers of `pwa/src/hooks/useBle.ts` are not modelled; only its sendCommand is, as the hook's command sink.
- pwa/src/hooks/useTauriBle.ts, useUnifiedBle.ts, BleProvider.tsx, tauri/src-tauri/src/main.rs and the UI components (App, KeyGrid, MacroList, MacroModal, DebugPanel, ConnectionStatusPanel, useTheme) are wrappers or presentation and are not part of this model.
- Battery: the render body of BatteryWidget.tsx and the icon components; levels are real numbers and whole-number bands are proved as lemmas.
- The Math.round upload progress of `pwa/src/hooks/useBle.ts:204` (floating point).
- The desktop shell's placeholder UUIDs are a single value; peripheral discovery, properties and services are scripted inputs.
- React staleness in general: each action reads the state as of its call, with two exceptions modelled explicitly. Synchronizer.Sync.FireAutoSave runs the saveButtonToDevice of the render that armed it, so it reads that render's slots and flag, kept in the pending timer. DeviceConfigHook.Hook.FireAutoSave runs the first render's saveConfigToDevice, so it reads the mount-time connection flag. saveConfig's loop likewise calls its own render's saveButtonToDevice; Synchronizer.Sync.SaveConfig passes it the slots saveConfig started from.
- Synchronizer.Sync.SendSlot: when the current slots are shorter than the index saved, the source's functional update writes a record holding only the flag at that index; the model leaves the slots unchanged there.
- Synchronizer.Sync.UpdateButton: the bound is the constant 15 as in the source, not the number of loaded slots. For an index from the loaded count up to 14 the source stores a record holding only the partial's fields (growing the array, with holes below it); such a record is not a button configuration, so the model leaves the slots unchanged there and only sets the flags and the timer.
- Synchronizer.Sync.CleanupConnection: a pending auto-save is left armed as in the source; it is harmless only because the command method is cleared.
- DeviceConfigHook.Hook.constructor: the hook's useBle() instance (`pwa/src/hooks/useBle.ts:38-44`) is its own, and only that instance's connectToDevice (`pwa/src/hooks/useBle.ts:137`) sets it connected, which nothing in the hook calls; the mount is therefore offline and stays so. The connected branches of LoadConfig, SaveConfig, ResetConfig and FireAutoSave are modelled as the code is written but are not reachable from the mount, as MountedHookNeverReachesDevice shows.
- Exchanger.DecodeText: TextDecoder's UTF-8 decoding of non-ASCII bytes is not modelled. A multi-byte sequence decodes to one character in the source but to one U+FFFD per byte in the model, and a leading byte-order mark is dropped by the source but not by the model, so `|s| == |bytes|` and the name decoded from such bytes hold of the model only. The firmware's own name is ASCII.
- DeviceConfigHook.Hook.SaveConfigToDevice: the JSON text it builds is only logged in the source, so the model does not build it.
- TauriBle.BleState.ScanForDevices: peripherals are given in discovery order; the order btleplug reports them in is not modelled.

## Findings

| source | as written | input that shows it | evidently intended | confidence | as-written member | corrected member |
|---|---|---|---|---|---|---|
| pwa/src/ble/communication.ts:79 | the device name is read from payload bytes 16..31 | the firmware's GET_INFO payload, whose armdeck_device_info_t puts "ArmDeck" at offset 14: the client shows "mDeck" | read the name from offset 14 | high; not executed | CrossChecks.GetInfoAsDecoded | CrossChecks.GetInfoDecodedAt14 |
| main/armdeck_service.c:225-230 | the fallback NACK frame is AD DC A1 01 01 6A | any handler error, e.g. GET_BUTTON with id 12: the stored frame's checksum 6A is not the XOR D0 of its first five bytes, so the client's parseResponse rejects it | end the frame with D0, as the dispatcher's own invalid-command frame does | high; not executed | CrossChecks.FallbackNackRejected | CrossChecks.CorrectedNackParsed |
| pwa/src/hooks/useDeviceConfig.ts:121 | the commands are sent as the four-character texts "0x50", "0x51" and "0x52" | every one of them begins with the byte 0x30, which the stand-alone build's write handler takes as its button test, and READ_CONFIG and RESET_CONFIG cannot be told apart by that byte | send the single opcode bytes 0x50, 0x51 and 0x52 the comments name | medium; not executed | DeviceConfigHook.CommandTextsShareFirstByte | DeviceConfigHook.OpcodesAreDistinct |
| pwa/src/hooks/useDeviceConfig.ts:72-82 | debouncedSave is memoised with no dependencies, so it keeps the first render's saveConfigToDevice and its connection flag | latent today, since the hook's useBle instance never connects and so the timer is never armed (MountedHookNeverReachesDevice); once that instance can be connected after mount, say by giving the hook the shared connection: mount disconnected, then connected, edit a button, and the auto-save throws "Device not connected" while a manual save at that moment succeeds | consult the current connection, as a manual save does | medium, latent; not executed | DeviceConfigHook.AutoSaveUsesMountState | DeviceConfigHook.CorrectedAutoSaveAgreesWithManual |
| pwa/src/ble/useBle.ts:336-338 | the auto-save timer calls the saveButtonToDevice of the render before the edit, which reads that render's buttons for the payload and for stillDirty | fully connected, slot 0 clean with caption "A", updateButton(0, {caption: "B"}): the timer sends SET_BUTTON with "A", and an accepted reply marks slot 0 clean, so "B" is shown as saved but never sent | save the slot as it stands when the timer fires | high; not executed | Synchronizer.AutoSaveLosesEdit | Synchronizer.Sync.FireAutoSaveCurrent |
| main/armdeck_protocol.c:228 | SET_BUTTON (and SET_CONFIG, line 178) writes the configuration without setting config_initialized, so the first GET_CONFIG after boot still runs the load of lines 127-134 | after a boot, SET_BUTTON for slot 0, then GET_CONFIG: slot 0 is back at its default and the write is lost | load the defaults before the first write, as GET_CONFIG does, so a written slot survives | medium; not executed | FwProtocol.SetButtonLostByFirstGetConfig | FwProtocol.CorrectedSetButtonSurvivesGetConfig |
| pwa/src/data/macros.ts:18 | the Esc macro's action is KEY_ESC, a name absent from the key map | assign Esc to a button: it is stored as 0x04 and reads back as KEY_A | KEY_ESCAPE, stored as Escape, usage 0x29 of the Keyboard/Keypad page | high; not executed | Macros.EscapeMacroAsWritten | Macros.EscapeMacroCorrected |
