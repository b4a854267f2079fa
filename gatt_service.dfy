// The firmware's custom GATT service (main/armdeck_service.c): the
// attribute buffers behind the command and keymap characteristics, the
// service-creation state, and the connection id. Calls into the Bluetooth
// stack become inputs (their status) or are left out.
module GattService {
  import opened Bytes
  import opened Esp
  import opened FwLayout
  import opened FwProtocol

  datatype ServiceState = Idle | Creating | Starting | Ready

  const NoConnection: nat := 0xFFFF
  /** ESP_GATT_IF_NONE. */
  const NoInterface: byte := 0xFF

  /**
   * The reply stored after a write on the command characteristic whose
   * handler failed or produced nothing: AD DC A1 01 01 6A.
   */
  const FallbackNack: seq<byte> := [0xAD, 0xDC, 0xA1, 0x01, 0x01, 0x6A]

  /** What a command write leaves in command_value for a dispatcher outcome. */
  function StoredReply(r: Reply): seq<byte>
  {
    if r.ret == EspOk && |r.response| > 0 then r.response else FallbackNack
  }

  /** The fallback's last byte is not the XOR of the five before it, which is 0xD0. */
  lemma FallbackNackChecksum()
    ensures XorAll(FallbackNack[..5]) == 0xD0 && FallbackNack[5] != XorAll(FallbackNack[..5])
  {
    var h: seq<byte> := [0xAD, 0xDC, 0xA1, 0x01, 0x01];
    assert FallbackNack[..5] == h;
    assert h[..4] == [0xAD, 0xDC, 0xA1, 0x01] && h[..4][..3] == [0xAD, 0xDC, 0xA1];
    assert h[..4][..3][..2] == [0xAD, 0xDC] && h[..4][..3][..2][..1] == [0xAD];
    assert XorAll(h[..4][..3][..2][..1]) == Xor(0, 0xAD) == 0xAD;
    assert XorAll(h[..4][..3][..2]) == Xor(0xAD, 0xDC) == 0x71;
    assert XorAll(h[..4][..3]) == Xor(0x71, 0xA1) == 0xD0;
    assert XorAll(h[..4]) == Xor(0xD0, 0x01) == 0xD1;
    assert XorAll(h) == Xor(0xD1, 0x01) == 0xD0;
  }

  /**
   * The error frames the dispatcher builds are never stored: GET_BUTTON
   * with an id of 12 or more yields an ERR_INVALID_PARAM frame, and the
   * fallback replaces it.
   */
  lemma ErrorFramesLost(s: FwState, input: seq<byte>, uptimeSeconds: u32, freeHeap: u32)
    requires WellFormedConfig(s.config) && Parse(input).Packet? && Parse(input).command == CmdGetButton
    requires Parse(input).length == 1 && Body(input)[0] >= 12
    ensures var r := Dispatch(s, input, uptimeSeconds, freeHeap);
            r.response == Respond(CmdGetButton, ErrInvalidParam, [])
            && StoredReply(r) == FallbackNack && StoredReply(r) != r.response
  {
  }

  class Service {
    var protocol: Protocol
    var serviceHandle: nat
    var commandCharHandle: nat
    var commandCharValHandle: nat
    var keymapCharHandle: nat
    var keymapCharValHandle: nat
    var connId: nat
    var gattsIf: byte
    var state: ServiceState
    var commandValue: array<byte>
    var commandValueLen: nat
    var keymapValue: array<byte>
    var keymapValueLen: nat

    ghost predicate Valid()
      reads this, protocol
    {
      protocol.Valid()
      && commandValue.Length == 256 && keymapValue.Length == 256 && commandValue != keymapValue
      && commandValueLen <= 256 && keymapValueLen <= 256
    }

    /** The bytes a read of the command characteristic returns. */
    function CommandReply(): seq<byte>
      reads this, commandValue
      requires commandValueLen <= commandValue.Length
    {
      commandValue[..commandValueLen]
    }

    /** The static initial values: no handles, no connection, empty buffers. */
    constructor(protocol: Protocol)
      requires protocol.Valid()
      ensures Valid() && this.protocol == protocol && fresh(commandValue) && fresh(keymapValue)
      ensures state == Idle && connId == NoConnection && gattsIf == NoInterface
      ensures commandCharHandle == 0 && keymapCharHandle == 0
      ensures commandValueLen == 0 && keymapValueLen == 0
    {
      this.protocol := protocol;
      serviceHandle := 0;
      commandCharHandle := 0;
      commandCharValHandle := 0;
      keymapCharHandle := 0;
      keymapCharValHandle := 0;
      connId := NoConnection;
      gattsIf := NoInterface;
      state := Idle;
      commandValue := new byte[256](_ => 0);
      commandValueLen := 0;
      keymapValue := new byte[256](_ => 0);
      keymapValueLen := 0;
    }

    /** armdeck_service_init. */
    method Init()
      requires Valid()
      modifies this`state, this`commandValueLen, this`keymapValueLen
      ensures Valid() && state == Idle && commandValueLen == 0 && keymapValueLen == 0
    {
      state := Idle;
      commandValueLen := 0;
      keymapValueLen := 0;
    }

    /** ESP_GATTS_REG_EVT; createAccepted is what esp_ble_gatts_create_service returns. */
    method OnRegister(statusOk: bool, gattsIfParam: byte, createAccepted: bool)
      requires Valid()
      modifies this`gattsIf, this`state
      ensures Valid()
      ensures !statusOk ==> gattsIf == old(gattsIf) && state == old(state)
      ensures statusOk ==> gattsIf == gattsIfParam && state == (if createAccepted then Creating else Idle)
    {
      if statusOk {
        gattsIf := gattsIfParam;
        state := Creating;
        if !createAccepted {
          state := Idle;
        }
      }
    }

    /** ESP_GATTS_CREATE_EVT. */
    method OnCreate(statusOk: bool, handle: nat)
      requires Valid() && handle < 0x1_0000
      modifies this`serviceHandle, this`state
      ensures Valid()
      ensures statusOk ==> serviceHandle == handle && state == Starting
      ensures !statusOk ==> serviceHandle == old(serviceHandle) && state == old(state)
    {
      if statusOk {
        serviceHandle := handle;
        state := Starting;
      }
    }

    /**
     * ESP_GATTS_ADD_CHAR_EVT: the first success records the command
     * characteristic, every later one the keymap characteristic and READY.
     */
    method OnAddChar(statusOk: bool, attrHandle: nat)
      requires Valid() && attrHandle < 0x1_0000
      modifies this`commandCharHandle, this`commandCharValHandle, this`keymapCharHandle,
               this`keymapCharValHandle, this`state
      ensures Valid()
      ensures !statusOk ==> state == old(state) && commandCharHandle == old(commandCharHandle)
                            && keymapCharHandle == old(keymapCharHandle)
      ensures statusOk && old(commandCharHandle) == 0 ==>
                commandCharHandle == attrHandle && commandCharValHandle == (attrHandle + 1) % 0x1_0000
                && state == old(state) && keymapCharHandle == old(keymapCharHandle)
      ensures statusOk && old(commandCharHandle) != 0 ==>
                keymapCharHandle == attrHandle && keymapCharValHandle == (attrHandle + 1) % 0x1_0000
                && state == Ready && commandCharHandle == old(commandCharHandle)
    {
      if statusOk {
        if commandCharHandle == 0 {
          commandCharHandle := attrHandle;
          commandCharValHandle := (attrHandle + 1) % 0x1_0000;
        } else {
          keymapCharHandle := attrHandle;
          keymapCharValHandle := (attrHandle + 1) % 0x1_0000;
          state := Ready;
        }
      }
    }

    /**
     * ESP_GATTS_WRITE_EVT. A write on either command handle runs the
     * dispatcher and stores StoredReply of its outcome; a keymap write of at
     * most 256 bytes replaces the keymap value; other handles change nothing.
     * The write response to the central is not modelled.
     */
    method OnWrite(handle: nat, value: seq<byte>, uptimeSeconds: u32, freeHeap: u32)
      requires Valid()
      modifies protocol, commandValue, keymapValue, this`commandValueLen, this`keymapValueLen
      ensures Valid()
      ensures handle == commandCharValHandle || handle == commandCharHandle ==>
                var r := Dispatch(old(protocol.State()), value, uptimeSeconds, freeHeap);
                protocol.State() == r.state && CommandReply() == StoredReply(r)
                && protocol.restartRequested == (old(protocol.restartRequested) || r.restart)
                && keymapValueLen == old(keymapValueLen) && keymapValue[..] == old(keymapValue[..])
      ensures !(handle == commandCharValHandle || handle == commandCharHandle) ==>
                protocol.State() == old(protocol.State()) && protocol.restartRequested == old(protocol.restartRequested)
                && commandValueLen == old(commandValueLen) && commandValue[..] == old(commandValue[..])
      ensures !(handle == commandCharValHandle || handle == commandCharHandle)
              && (handle == keymapCharValHandle || handle == keymapCharHandle) && |value| <= 256 ==>
                keymapValue[..keymapValueLen] == value
      ensures !(handle == commandCharValHandle || handle == commandCharHandle)
              && !((handle == keymapCharValHandle || handle == keymapCharHandle) && |value| <= 256) ==>
                keymapValueLen == old(keymapValueLen) && keymapValue[..] == old(keymapValue[..])
    {
      if handle == commandCharValHandle || handle == commandCharHandle {
        WriteCommand(value, uptimeSeconds, freeHeap);
      } else if handle == keymapCharValHandle || handle == keymapCharHandle {
        WriteKeymap(value);
      }
    }

    /** The command branch of the write event. */
    method WriteCommand(value: seq<byte>, uptimeSeconds: u32, freeHeap: u32)
      requires Valid()
      modifies protocol, commandValue, this`commandValueLen
      ensures Valid()
      ensures var r := Dispatch(old(protocol.State()), value, uptimeSeconds, freeHeap);
              protocol.State() == r.state && CommandReply() == StoredReply(r)
              && protocol.restartRequested == (old(protocol.restartRequested) || r.restart)
    {
      var response := new byte[256];
      var ret, responseLen := protocol.HandleCommand(value, uptimeSeconds, freeHeap, response);
      if ret == EspOk && responseLen > 0 {
        if responseLen <= commandValue.Length {
          forall i | 0 <= i < responseLen {
            commandValue[i] := response[i];
          }
          commandValueLen := responseLen;
          assert CommandReply() == response[..responseLen];
        }
      } else {
        commandValue[0] := 0xAD;
        commandValue[1] := 0xDC;
        commandValue[2] := 0xA1;
        commandValue[3] := 0x01;
        commandValue[4] := 0x01;
        commandValue[5] := 0x6A;
        commandValueLen := 6;
        assert CommandReply() == FallbackNack;
      }
    }

    /** The keymap branch of the write event: writes longer than the buffer are ignored. */
    method WriteKeymap(value: seq<byte>)
      requires Valid()
      modifies keymapValue, this`keymapValueLen
      ensures Valid()
      ensures |value| <= 256 ==> keymapValue[..keymapValueLen] == value
      ensures |value| > 256 ==> keymapValueLen == old(keymapValueLen) && keymapValue[..] == old(keymapValue[..])
    {
      if |value| <= keymapValue.Length {
        forall i | 0 <= i < |value| {
          keymapValue[i] := value[i];
        }
        keymapValueLen := |value|;
      }
    }

    /** ESP_GATTS_READ_EVT: the stored bytes of the handle's characteristic, nothing for unknown handles. */
    method OnRead(handle: nat) returns (data: seq<byte>)
      requires Valid()
      ensures handle == commandCharHandle || handle == commandCharValHandle ==> data == CommandReply()
      ensures !(handle == commandCharHandle || handle == commandCharValHandle)
              && (handle == keymapCharHandle || handle == keymapCharValHandle) ==>
                data == keymapValue[..keymapValueLen]
      ensures !(handle == commandCharHandle || handle == commandCharValHandle
                || handle == keymapCharHandle || handle == keymapCharValHandle)
              ==> data == []
    {
      if handle == commandCharHandle || handle == commandCharValHandle {
        data := commandValue[..commandValueLen];
      } else if handle == keymapCharHandle || handle == keymapCharValHandle {
        data := keymapValue[..keymapValueLen];
      } else {
        data := [];
      }
    }

    /** ESP_GATTS_CONNECT_EVT (the HID side effect is not modelled). */
    method OnConnect(id: nat)
      modifies this`connId
      ensures connId == id
    {
      connId := id;
    }

    /** ESP_GATTS_DISCONNECT_EVT. */
    method OnDisconnect()
      modifies this`connId
      ensures connId == NoConnection
    {
      connId := NoConnection;
    }

    /** armdeck_service_is_ready. */
    method IsReady() returns (ready: bool)
      ensures ready <==> state == Ready
    {
      ready := state == Ready;
    }

    /** armdeck_service_send_notification; sent is what esp_ble_gatts_send_indicate returns. */
    method SendNotification(sent: EspErr) returns (ret: EspErr)
      ensures connId == NoConnection || gattsIf == NoInterface ==> ret == EspErrInvalidState
      ensures !(connId == NoConnection || gattsIf == NoInterface) ==> ret == sent
    {
      if connId == NoConnection || gattsIf == NoInterface {
        return EspErrInvalidState;
      }
      return sent;
    }
  }
}
