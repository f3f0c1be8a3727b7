// Concrete servers behind the two rules the client departs from.
module Witnesses {
  import opened Bytes
  import opened Wire
  import opened Network
  import opened Session
  import opened Retry
  import opened SessionTheorems
  import ClientRuns
  import FileHandler
  import Payloads

  // The bytes of a connection request.
  const FIRST_REQUEST := 279

  // A server that answers the first request, and nothing after it, and a
  // client whose private key file can be written or not.
  function AnswersOnce(code: nat, payload: bytes, stack: Id, keyFile: bool): Env
    requires code < 0x1_0000 && |payload| < 0x1_0000_0000
  {
    Env(
      (received: bytes) => if |received| == FIRST_REQUEST then EncodeResponse(3, code, payload) else [],
      (i: nat) => 0x1_0000_0000,
      (i: nat) => Response(0, 0, 0, []),
      (i: nat) => 0,
      (i: nat) => stack,
      (i: nat, n: nat) => 0,
      (i: nat) => 0,
      (i: nat) => ([], []),
      (x: bytes) => x,
      (x: bytes, key: bytes) => None,
      (plain: bytes, key: bytes, i: nat) => plain,
      (i: nat) => Some([]),
      (x: bytes) => 0,
      (i: nat, f: File) => keyFile || f != PrivateKeyFile)
  }

  lemma FirstAnswer(c: Client, disk: World, request: nat, code: nat, payload: bytes, stack: Id, keyFile: bool)
    requires request < 0x1_0000 && code < 0x1_0000 && |payload| < 0x1_0000_0000
    ensures var env := AnswersOnce(code, payload, stack, keyFile);
            var (answer, id, w) := Connect(env, c, Opened(disk), request);
            && answer == Response(VersionChar(3), code, |payload|, payload)
            && id == Overlay(stack, payload)
            && w.incoming == [] && |w.outgoing| == FIRST_REQUEST
            && |w.trace| == 2 && Asked(w.trace[0], request) && w.trace[1] == Received(answer)
  {
    hide EncodeResponse; hide Overlay; hide Frame; hide Payloads.NamePayload; hide VersionChar; hide Answer;
    hide AfterAnswer;
    var env := AnswersOnce(code, payload, stack, keyFile);
    var w0 := Opened(disk);
    var r := ConnectionRequest(env, c, 0, request);
    var w1 := Send(env, w0, r);
    assert [] + Frame(r) == Frame(r);
    assert w1.incoming == EncodeResponse(3, code, payload) + [];
    AnswerOfEncoded(env, w1, 3, code, payload, []);
    TalkTrace(env, w0, r);
    assert AfterAnswer(env, w1).outgoing == w1.outgoing by { AnswerSendsNothing(env, w1); }
  }

  lemma AnswerSendsNothing(env: Env, w: World)
    ensures AfterAnswer(env, w).outgoing == w.outgoing
  {
    hide Answer;
  }

  // A registration answered by 2100 with fewer than sixteen bytes goes on to
  // send the public key, under an id that ends as the stack does.
  lemma ShortAnswerReachesKeys(c: Client, disk: World, payload: bytes, stack: Id)
    requires |payload| < 16
    ensures var t := Register(AnswersOnce(REGISTRATION_SUCCESS, payload, stack, true), c, Opened(disk)).1.trace;
            && |t| >= 3
            && Asked(t[0], REGISTRATION)
            && Answered(t[1], REGISTRATION_SUCCESS) && t[1].response.payload == payload
            && Asked(t[2], SEND_PUBLIC_KEY) && t[2].request.clientId == payload + stack[|payload|..]
  {
    hide Connect; hide Talk; hide Reply; hide PublicKeyRequest; hide FileHandler.MeInfoText; hide AnswersOnce;
    hide EncryptAndSend;
    var env := AnswersOnce(REGISTRATION_SUCCESS, payload, stack, true);
    FirstAnswer(c, disk, REGISTRATION, REGISTRATION_SUCCESS, payload, stack, true);
    var (answer, id, w) := Connect(env, c, Opened(disk), REGISTRATION);
    NoSecondAnswer(c, w, REGISTRATION_SUCCESS, payload, stack, id);
  }

  lemma NoSecondAnswer(c: Client, w: World, code: nat, payload: bytes, stack: Id, id: Id)
    requires code < 0x1_0000 && |payload| < 0x1_0000_0000
    requires w.incoming == [] && |w.outgoing| == FIRST_REQUEST
    ensures var (outcome, w') := Finish(AnswersOnce(code, payload, stack, true), c, w, id);
            && |w'.trace| == |w.trace| + 2 && w'.trace[..|w.trace|] == w.trace
            && Asked(w'.trace[|w.trace|], SEND_PUBLIC_KEY)
            && w'.trace[|w.trace|].request.clientId == id
  {
    hide FileHandler.MeInfoText; hide EncodeResponse; hide Frame; hide Payloads.PublicKeyPayload; hide EncryptAndSend;
    hide VersionChar; hide FromBe16; hide FromBe32;
    var env := AnswersOnce(code, payload, stack, true);
    var keys := env.keys(|w.trace|);
    var w2 := w.(privateKey := Some(keys.1), meInfo := Some(FileHandler.MeInfoText(c.name, id, env.base64(keys.1))));
    var r := PublicKeyRequest(env, c, |w.trace|, id, keys.0);
    assert |Frame(r)| > 0;
    assert Send(env, w2, r).incoming == [];
    assert Reply(env, w2, r).code == 0;
    TalkTrace(env, w2, r);
  }

  // So two clients that differ in the stack alone can carry different ids to
  // the same server.
  lemma StackReachesServer(c: Client, disk: World, payload: bytes)
    requires |payload| < 16
    ensures exists x: Id, y: Id ::
      var t := Register(AnswersOnce(REGISTRATION_SUCCESS, payload, x, true), c, Opened(disk)).1.trace;
      var u := Register(AnswersOnce(REGISTRATION_SUCCESS, payload, y, true), c, Opened(disk)).1.trace;
      && |t| >= 3 && |u| >= 3 && t[2].Sent? && u[2].Sent?
      && t[2].request.clientId != u[2].request.clientId
  {
    hide Register; hide AnswersOnce;
    var x: Id, y: Id := Fill(16, 0), Fill(16, 1);
    ShortAnswerReachesKeys(c, disk, payload, x);
    ShortAnswerReachesKeys(c, disk, payload, y);
    assert (payload + x[|payload|..])[15] == 0 && (payload + y[|payload|..])[15] == 1;
  }

  // There is a me.info, the server approves the reconnection, and the client
  // registers all the same: its private key file could not be written.
  lemma RegistersDespiteMeInfo(env2: Env, disk: World, transfer: FileHandler.TransferRead)
    requires transfer.Good? && disk.meInfo.Some?
    ensures var env1 := AnswersOnce(APPROVE_RECONNECT_SEND_AES, Fill(16, 0), Fill(16, 0), false);
            && Reconnect(env1, KnownClient(disk.meInfo.value, transfer.info), Opened(disk)).0 == RuntimeError
            && HandleClient(env1, env2, disk, true, true, transfer).second.trace != []
  {
    hide HandleClient; hide Connect; hide Reply; hide PublicKeyRequest; hide KnownClient; hide Reconnect;
    var env1 := AnswersOnce(APPROVE_RECONNECT_SEND_AES, Fill(16, 0), Fill(16, 0), false);
    var c := KnownClient(disk.meInfo.value, transfer.info);
    FirstAnswer(c, disk, RECONNECT, APPROVE_RECONNECT_SEND_AES, Fill(16, 0), Fill(16, 0), false);
    var (answer, id, w) := Connect(env1, c, Opened(disk), RECONNECT);
    assert ClientRuns.FileStops(env1, c, w, id);
    assert ClientRuns.ReconnectStops(env1, c, Opened(disk));
    ClientRuns.ReconnectFails(env1, c, Opened(disk));
    ClientRuns.SecondConnectionExactly(env1, env2, disk, true, true, transfer);
  }

  // With a me.info and no first connection the client does not register.
  lemma NoConnectionNoRegistration(env1: Env, env2: Env, disk: World, connected2: bool,
                                   transfer: FileHandler.TransferRead)
    requires disk.meInfo.Some?
    ensures var run := HandleClient(env1, env2, disk, false, connected2, transfer);
            run.first.trace == [] && run.second.trace == []
  {
    hide Reconnect; hide Register;
  }
}
