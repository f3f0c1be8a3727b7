// The client's objects: a connection that is sent to and received from, and the
// handlers that drive it. Every method is proved to do what the function of the
// same step in Session says.
module ProtocolHandler {
  import opened Bytes
  import opened Memory
  import opened Wire
  import opened Network
  import opened Session
  import opened FileChecksum
  import CryptoHandler
  import FileHandler
  import Hex
  import Payloads

  // The files the client writes.
  class Disk {
    var meInfo: Option<bytes>
    var privateKey: Option<bytes>

    constructor (meInfo: Option<bytes>, privateKey: Option<bytes>)
      ensures this.meInfo == meInfo && this.privateKey == privateKey
    {
      this.meInfo, this.privateKey := meInfo, privateKey;
    }
  }

  // The image of a Request in memory, up to its payload pointer.
  function Header(r: Request): (s: bytes)
    requires r.Valid()
    ensures |s| == HEADER_SIZE
  {
    r.clientId + [r.version, r.padding] + Le16(r.code) + Le32(|r.payload|)
  }

  lemma FrameParts(r: Request, s0: bytes, s1: bytes, s2: bytes)
    requires r.Valid() && |s0| == HEADER_SIZE + |r.payload|
    requires s1 == Patched(s0, 0, Header(r)) && s2 == Patched(s1, HEADER_SIZE, r.payload)
    ensures s2 == Frame(r)
  {
    assert s1[..HEADER_SIZE] == Header(r);
    assert s2 == Header(r) + r.payload;
  }

  // A new buffer with the path and its NUL copied into it.
  method PathBufferFor(env: Env, moment: nat, path: bytes) returns (payload: array<byte>)
    ensures fresh(payload) && payload[..] == PathBuffer(env, moment, path)
  {
    var n := |path| + 1;
    var fill: bytes := HeapBytes(env, moment, n);
    payload := new byte[n](i requires 0 <= i < |fill| => fill[i]);
    assert payload[..] == fill;
    Strcpy(payload, 0, path);
  }

  method PublicKeyBuffer(name: bytes, publicKey: bytes) returns (payload: array<byte>)
    ensures fresh(payload) && payload[..] == Payloads.PublicKeyPayload(name, publicKey)
  {
    var n := Payloads.NAME_FIELD_SIZE + |publicKey|;
    payload := new byte[n];
    Memset(payload, 0, n);
    ghost var s0 := payload[..];
    Strncpy(payload, 0, name, Payloads.NAME_FIELD_SIZE - 1);
    ghost var s1 := payload[..];
    Strncpy(payload, Payloads.NAME_FIELD_SIZE, publicKey, |publicKey|);
    NameAndKey(s0, s1, payload[..], name, publicKey);
  }

  class ProtocolHandler {
    const env: Env
    const clientName: bytes
    const filePath: bytes
    const disk: Disk
    var outgoing: bytes
    var incoming: bytes
    var recvs: nat
    var clock: nat
    ghost var trace: seq<Event>

    constructor (env: Env, clientName: bytes, filePath: bytes, disk: Disk)
      ensures Valid() && this.env == env && this.disk == disk
      ensures Owner() == Client(clientName, filePath)
      ensures State() == World([], [], 0, [], disk.meInfo, disk.privateKey)
    {
      this.env, this.clientName, this.filePath, this.disk := env, clientName, filePath, disk;
      outgoing, incoming, recvs, clock, trace := [], [], 0, 0, [];
    }

    ghost predicate Valid()
      reads this
    {
      clock == |trace|
    }

    function Owner(): Client {
      Client(clientName, filePath)
    }

    ghost function State(): World
      reads this, disk
    {
      World(outgoing, incoming, recvs, trace, disk.meInfo, disk.privateKey)
    }

    // -------------------------------------------------------------------
    // sendRequest, safeReceive, getResponse

    method SendRequest(r: Request)
      requires Valid() && r.Valid()
      modifies this
      ensures Valid() && State() == Send(env, old(State()), r)
    {
      var totalSize := HEADER_SIZE + |r.payload|;
      var buffer := new byte[totalSize];
      ghost var s0 := buffer[..];
      Memcpy(buffer, 0, Header(r));
      ghost var s1 := buffer[..];
      Memcpy(buffer, HEADER_SIZE, r.payload);
      FrameParts(r, s0, s1, buffer[..]);
      outgoing := outgoing + buffer[..];
      incoming := incoming + env.reply(outgoing);
      clock := clock + 1;
      trace := trace + [Sent(r)];
    }

    // The number of bytes put into the buffer, or -1.
    method SafeReceive(buffer: array<byte>, length: nat) returns (received: int)
      requires Valid() && length <= buffer.Length
      modifies this, buffer
      ensures Valid() && received == Arriving(env, old(State()), length)
      ensures State() == AfterReceive(env, old(State()), length)
      ensures received == length <==> 0 <= length <= old(env.chunk(recvs)) && length <= |old(incoming)|
      ensures if received < 0 then incoming == old(incoming)
              else received <= length && buffer[..received] + incoming == old(incoming)
    {
      received := env.chunk(recvs);
      recvs := recvs + 1;
      if received < 0 {
        received := -1;
      } else {
        received := Min(Min(received, length), |incoming|);
        Memcpy(buffer, 0, incoming[..received]);
        incoming := incoming[received..];
      }
    }

    method GetResponse() returns (response: Response)
      requires Valid()
      modifies this
      ensures Valid() && response == Answer(env, old(State()))
      ensures State() == AfterAnswer(env, old(State()))
    {
      response := env.unset(recvs).(payload := []);
      var header := new byte[RESPONSE_HEADER_SIZE];
      var received := SafeReceive(header, RESPONSE_HEADER_SIZE);
      if received == RESPONSE_HEADER_SIZE {
        ghost var first := old(incoming)[..RESPONSE_HEADER_SIZE];
        assert header[..] == header[..received] == first;
        assert header[1..3] == first[1..3] && header[3..7] == first[3..7] == old(incoming)[3..7];
        response := Response(VersionChar(header[0]), FromBe16(header[1..3]), FromBe32(header[3..7]), []);
        var payload := new byte[response.payloadSize];
        received := SafeReceive(payload, response.payloadSize);
        if received == response.payloadSize {
          response := response.(payload := payload[..received]);
        }
      }
      clock := clock + 1;
      trace := trace + [Received(response)];
    }

    // -------------------------------------------------------------------
    // sendCRCStatusRequest, handleRetrySendFile

    method SendCRCStatusRequest(clientId: array<byte>, code: nat) returns (confirmed: bool)
      requires Valid() && clientId.Length == 16 && code < 0x1_0000
      modifies this
      ensures Valid() && confirmed == ReportConfirmed(env, Owner(), old(State()), clientId[..], code)
      ensures State() == ReportCrc(env, Owner(), old(State()), clientId[..], code)
    {
      var payload := PathBufferFor(env, clock, filePath);
      var n := payload.Length % 0x1_0000_0000;
      assert payload[..][..n] == payload[..n];
      var request := Request(clientId[..], PROTOCOL_VERSION, env.pad(clock), code, payload[..n]);
      assert request == CrcStatusRequest(env, Owner(), clock, clientId[..], code);
      SendRequest(request);
      var response := GetResponse();
      confirmed := response.code == CONFIRM_MSG;
    }

    // The upload loop.
    method HandleRetrySendFile(file: Request, maxRetries: int, clientId: array<byte>) returns (status: bool)
      requires Valid() && file.Valid() && clientId.Length == 16 && UsesMemcrc(env)
      modifies this
      ensures Valid() && (status, State()) == SendFile(env, Owner(), old(State()), file, clientId[..], maxRetries)
    {
      hide Send; hide Answer; hide AfterAnswer; hide ReportCrc; hide ReportConfirmed; hide UsesMemcrc;
      hide Request.Valid;
      ghost var w0 := State();
      ghost var id := clientId[..];
      var retries := 0;
      status := false;
      while retries < maxRetries
        invariant Valid() && clientId[..] == id && !status
        invariant RetryLoop(env, Owner(), w0, file, id, 0, maxRetries)
               == RetryLoop(env, Owner(), State(), file, id, retries, maxRetries)
        decreases maxRetries - retries
      {
        SendRequest(file);
        var response := GetResponse();
        if response.code == FILE_RECEIVED_CRC_OK {
          var receivedCrc := if |response.payload| < 4 then env.wild(clock) % 0x1_0000_0000
                             else FromLe32(response.payload[|response.payload| - 4..]);
          var calculatedCrc := FileChecksum.ReadCrc(env, env.file(clock));
          if receivedCrc == calculatedCrc {
            status := SendCRCStatusRequest(clientId, CRC_CORRECT);
            break;
          } else {
            var _ := SendCRCStatusRequest(clientId, CRC_INCORRECT_RESEND);
          }
        }
        retries := retries + 1;
      }
      if retries == maxRetries {
        var _ := SendCRCStatusRequest(clientId, CRC_INCORRECT_DONE);
      }
    }

    // -------------------------------------------------------------------
    // handleConnectionRequest, handleRSARegistration

    method HandleConnectionRequest(clientId: array<byte>, code: nat) returns (response: Response)
      requires Valid() && clientId.Length == 16 && code < 0x1_0000
      modifies this, clientId
      ensures Valid()
      ensures var request := ConnectionRequest(env, Owner(), old(clock), code);
              && response == Reply(env, old(State()), request)
              && State() == Talk(env, old(State()), request)
      ensures clientId[..] == Overlay(old(clientId[..]), response.payload)
      ensures forall b | 0 <= b < 16 ::
                clientId[b] == if b < |response.payload| then response.payload[b] else old(clientId[b])
    {
      hide Send; hide Answer; hide AfterAnswer;
      var payload := new byte[Payloads.NAME_FIELD_SIZE](_ => 0);
      ghost var s0 := payload[..];
      Strncpy(payload, 0, clientName, Payloads.NAME_FIELD_SIZE - 1);
      NameOnly(s0, payload[..], clientName);
      var request := Request(Fill(16, 0), PROTOCOL_VERSION, env.pad(clock), code, payload[..]);
      SendRequest(request);
      response := GetResponse();
      Memcpy(clientId, 0, response.payload[..Min(16, |response.payload|)]);
    }

    // None stands for the runtime error of a file that cannot be written.
    method HandleRSARegistration(clientId: array<byte>) returns (response: Option<Response>, privateKey: bytes)
      requires Valid() && clientId.Length == 16
      modifies this, disk
      ensures Valid()
      ensures KeyStep(response, privateKey, State()) == ExchangeKeys(env, Owner(), old(State()), clientId[..])
    {
      hide Send; hide Answer; hide AfterAnswer; hide Payloads.PublicKeyPayload; hide FileHandler.MeInfoText;
      var keys := env.keys(clock);
      privateKey := keys.1;
      response := None;
      var payload := PublicKeyBuffer(clientName, keys.0);
      var n := payload.Length % 0x1_0000_0000;
      assert payload[..][..n] == payload[..n];
      var request := Request(clientId[..], PROTOCOL_VERSION, env.pad(clock), SEND_PUBLIC_KEY, payload[..n]);
      assert request == PublicKeyRequest(env, Owner(), clock, clientId[..], keys.0);
      if !env.writable(clock, PrivateKeyFile) {
        return;
      }
      disk.privateKey := Some(privateKey);
      if !env.writable(clock, MeInfoFile) {
        return;
      }
      var file := new FileHandler.OutputFile();
      FileHandler.SaveMeInfo(file, clientName, clientId, env.base64(privateKey));
      assert file.contents == FileHandler.MeInfoText(clientName, clientId[..], env.base64(privateKey));
      disk.meInfo := Some(file.contents);
      SendRequest(request);
      var answer := GetResponse();
      response := Some(answer);
    }

    // -------------------------------------------------------------------
    // handleFileEncryptionAndSend, handleRegistration, handleReconnection

    method HandleFileEncryptionAndSend(encryptedKey: bytes, privateKey: bytes, clientId: array<byte>)
      returns (outcome: Outcome)
      requires Valid() && clientId.Length == 16 && UsesMemcrc(env)
      modifies this
      ensures Valid()
      ensures (outcome, State()) == EncryptAndSend(env, Owner(), old(State()), encryptedKey, privateKey, clientId[..])
    {
      hide SendFile; hide Payloads.FilePayload; hide Hex.HexOf; hide UsesMemcrc;
      var aesKey := env.rsaDecrypt(encryptedKey, privateKey);
      if aesKey.None? {
        return OtherError;
      }
      var contents := env.file(clock);
      if contents.None? {
        return RuntimeError;
      }
      var encrypted := CryptoHandler.EncryptWithAes(env, contents.value, aesKey.value, clock);
      if encrypted.None? {
        return OtherError;
      }
      var content := encrypted.value;
      var buffer := Payloads.CreateFilePayloadBuffer(filePath, content);
      var size := (259 + |content|) % 0x1_0000_0000;
      var request := Request(clientId[..], PROTOCOL_VERSION, env.pad(clock), SEND_FILE, buffer[..size]);
      assert buffer[..size] == Payloads.SentFilePayload(filePath, content) by {
        assert buffer[..259 + |content|][..size] == buffer[..size];
      }
      assert request == FileRequest(env, Owner(), clock, clientId[..], content);
      var status := HandleRetrySendFile(request, 3, clientId);
      outcome := Returned(status);
    }

    // The steps registration and reconnection share.
    method HandleKeysAndFile(clientId: array<byte>) returns (outcome: Outcome)
      requires Valid() && clientId.Length == 16 && UsesMemcrc(env)
      modifies this, disk
      ensures Valid() && (outcome, State()) == Finish(env, Owner(), old(State()), clientId[..])
    {
      hide ExchangeKeys; hide EncryptAndSend; hide UsesMemcrc;
      var response, privateKey := HandleRSARegistration(clientId);
      if response.None? {
        return RuntimeError;
      }
      if response.value.code != RECEIVED_PUBLIC_KEY_SEND_AES {
        return Returned(false);
      }
      if |response.value.payload| < 16 {
        return OtherError;
      }
      outcome := HandleFileEncryptionAndSend(response.value.payload[16..], privateKey, clientId);
    }

    method HandleRegistration() returns (outcome: Outcome)
      requires Valid() && UsesMemcrc(env)
      modifies this, disk
      ensures Valid() && (outcome, State()) == Register(env, Owner(), old(State()))
    {
      hide Finish; hide Talk; hide Reply; hide ConnectionRequest; hide UsesMemcrc;
      var stack := StackId(env, clock);
      var clientId := new byte[16](i requires 0 <= i < |stack| => stack[i]);
      assert clientId[..] == stack;
      var response := HandleConnectionRequest(clientId, REGISTRATION);
      if response.code != REGISTRATION_SUCCESS {
        return Returned(false);
      }
      outcome := HandleKeysAndFile(clientId);
    }

    method HandleReconnection() returns (outcome: Outcome)
      requires Valid() && UsesMemcrc(env)
      modifies this, disk
      ensures Valid() && (outcome, State()) == Reconnect(env, Owner(), old(State()))
    {
      hide Finish; hide Talk; hide Reply; hide ConnectionRequest; hide UsesMemcrc; hide Register;
      var stack := StackId(env, clock);
      var clientId := new byte[16](i requires 0 <= i < |stack| => stack[i]);
      assert clientId[..] == stack;
      var response := HandleConnectionRequest(clientId, RECONNECT);
      if response.code == RECONNECT_REJECTED {
        outcome := HandleRegistration();
      } else if response.code != APPROVE_RECONNECT_SEND_AES {
        outcome := Returned(false);
      } else {
        outcome := HandleKeysAndFile(clientId);
      }
    }
  }

  lemma NameOnly(s0: bytes, s1: bytes, name: bytes)
    requires s0 == Fill(Payloads.NAME_FIELD_SIZE, 0)
    requires s1 == Patched(s0, 0, Field(name, Payloads.NAME_FIELD_SIZE - 1))
    ensures s1 == Payloads.NamePayload(name)
  {
    hide Field;
    assert s0[254..] == [0];
  }

  lemma NameAndKey(s0: bytes, s1: bytes, s2: bytes, name: bytes, key: bytes)
    requires |s0| == Payloads.NAME_FIELD_SIZE + |key| && s0 == Fill(Payloads.NAME_FIELD_SIZE + |key|, 0)
    requires s1 == Patched(s0, 0, Field(name, Payloads.NAME_FIELD_SIZE - 1))
    requires s2 == Patched(s1, Payloads.NAME_FIELD_SIZE, Field(key, |key|))
    ensures s2 == Payloads.PublicKeyPayload(name, key)
  {
    hide Field;
    assert s1[..255] == Field(name, 254) + [0];
    assert s2 == s1[..255] + Field(key, |key|);
  }

  // main.cpp's handleClient. The disk may already hold a me.info.
  method HandleClient(env1: Env, env2: Env, disk: Disk, connected1: bool, connected2: bool,
                      transferFile: Option<bytes>, stoi: bytes -> Option<int>)
    returns (outcome: Outcome, first: ProtocolHandler?, second: ProtocolHandler?)
    requires UsesMemcrc(env1) && UsesMemcrc(env2)
    modifies disk
    ensures var run := Session.HandleClient(env1, env2, World([], [], 0, [], old(disk.meInfo), old(disk.privateKey)),
                                            connected1, connected2, FileHandler.TransferInfoOf(transferFile, stoi));
            && outcome == run.outcome
            && (if first == null then run.first.trace == []
                else first.trace == run.first.trace && first.outgoing == run.first.outgoing)
            && (if second == null then run.second.trace == []
                else second.trace == run.second.trace && second.outgoing == run.second.outgoing)
            && (disk.meInfo == run.second.meInfo && disk.privateKey == run.second.privateKey)
  {
    hide Reconnect; hide Register; hide FileHandler.ParseMeInfo; hide FileHandler.TransferInfoOf; hide UsesMemcrc;
    first, second := null, null;
    var transfer := FileHandler.ReadTransferInfo(transferFile, stoi);
    if transfer.BadFile? {
      return RuntimeError, null, null;
    }
    if transfer.BadPort? {
      return OtherError, null, null;
    }
    var info := transfer.info;
    outcome := RuntimeError;
    var meInfo := FileHandler.ReadMeInfo(disk.meInfo);
    if meInfo.Some? {
      var handler := new ProtocolHandler(env1, meInfo.value.name, info.filePath, disk);
      first := handler;
      outcome := Returned(false);
      if connected1 {
        outcome := handler.HandleReconnection();
      }
    }
    if outcome == RuntimeError {
      var handler := new ProtocolHandler(env2, info.name, info.filePath, disk);
      second := handler;
      outcome := Returned(false);
      if connected2 {
        outcome := handler.HandleRegistration();
      }
    }
  }
}
