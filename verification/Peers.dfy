/** A connection to a peer: one cipher per direction, each given a new key after
    every 256 messages. */
module Peers {
  import opened Noise

  /** One direction: the cipher's state and the 8-bit count of messages. */
  datatype Half = Half(state: Keyed, count: Byte)

  /** A message has taken the cipher to `t`. */
  function Stepped(c: Cipher, h: Half, t: Keyed): Half {
    var count := (h.count + 1) % 256;
    Half(if count == 0 then c.rekey(t) else t, count)
  }

  datatype Stream = Broken | Stream(half: Half, items: seq<Bytes>)

  function Put(item: Bytes, next: Stream): Stream {
    match next
    case Broken => Broken
    case Stream(h, items) => Stream(h, [item] + items)
  }

  /** What a run of messages becomes on the wire. */
  function SendRun(c: Cipher, h: Half, msgs: seq<Bytes>): Stream
    requires c.mac < MAX_MESSAGE_SIZE
    decreases |msgs|
  {
    if msgs == [] then Stream(h, [])
    else
      match SealAll(c, h.state, msgs[0])
      case Failed => Broken
      case Done(t, d) => Put(d, SendRun(c, Stepped(c, h, t), msgs[1..]))
  }

  /** What a run of data received in order is read as. */
  function RecvRun(c: Cipher, h: Half, wire: seq<Bytes>): Stream
    decreases |wire|
  {
    if wire == [] then Stream(h, [])
    else
      match OpenAll(c, h.state, wire[0])
      case Failed => Broken
      case Done(t, p) => Put(p, RecvRun(c, Stepped(c, h, t), wire[1..]))
  }

  lemma SendOne(c: Cipher, h: Half, msg: Bytes)
    requires c.mac < MAX_MESSAGE_SIZE
    ensures var r := SealAll(c, h.state, msg);
      SendRun(c, h, [msg]) == if r.Failed? then Broken else Stream(Stepped(c, h, r.state), [r.data])
  {
    assert [msg][1..] == [];
  }

  lemma RecvOne(c: Cipher, h: Half, data: Bytes)
    ensures var r := OpenAll(c, h.state, data);
      RecvRun(c, h, [data]) == if r.Failed? then Broken else Stream(Stepped(c, h, r.state), [r.data])
  {
    assert [data][1..] == [];
  }

  lemma {:induction false} ReadsWhatWasSent(c: Cipher, h: Half, msgs: seq<Bytes>)
    requires CipherOk(c)
    ensures var r := SendRun(c, h, msgs);
      r.Stream? ==> |r.items| == |msgs| && RecvRun(c, h, r.items) == Stream(r.half, msgs)
    decreases |msgs|
  {
    if msgs != [] && SendRun(c, h, msgs).Stream? {
      var r := SendRun(c, h, msgs);
      var first := SealAll(c, h.state, msgs[0]);
      RoundTrip(c, h.state, msgs[0]);
      ReadsWhatWasSent(c, Stepped(c, h, first.state), msgs[1..]);
      assert r.items[0] == first.data && r.items[1..] == SendRun(c, Stepped(c, h, first.state), msgs[1..]).items;
      assert msgs == [msgs[0]] + msgs[1..];
    }
  }

  lemma {:induction false} SentPrefix(c: Cipher, h: Half, msgs: seq<Bytes>, k: nat)
    requires c.mac < MAX_MESSAGE_SIZE && k <= |msgs| && SendRun(c, h, msgs).Stream?
    ensures var r := SendRun(c, h, msgs[..k]);
      r.Stream? && |SendRun(c, h, msgs).items| == |msgs| && r.items == SendRun(c, h, msgs).items[..k]
    decreases |msgs|
  {
    if msgs == [] {
      assert msgs[..k] == msgs;
    } else {
      var next := Stepped(c, h, SealAll(c, h.state, msgs[0]).state);
      SentPrefix(c, next, msgs[1..], if k == 0 then 0 else k - 1);
      if k > 0 { assert msgs[..k][1..] == msgs[1..][..k - 1]; }
    }
  }

  function Append(a: Stream, next: Half -> Stream): Stream {
    match a
    case Broken => Broken
    case Stream(h, items) =>
      match next(h)
      case Broken => Broken
      case Stream(h', more) => Stream(h', items + more)
  }

  /** A run of calls is one run: sending `a` and then `b` is sending `a + b`. */
  lemma {:induction false} SendsCompose(c: Cipher, h: Half, a: seq<Bytes>, b: seq<Bytes>)
    requires c.mac < MAX_MESSAGE_SIZE
    ensures SendRun(c, h, a + b) == Append(SendRun(c, h, a), (t: Half) => SendRun(c, t, b))
    decreases |a|
  {
    if a == [] {
      assert a + b == b;
      var r := SendRun(c, h, b);
      if r.Stream? { assert [] + r.items == r.items; }
    } else {
      assert (a + b)[1..] == a[1..] + b;
      var first := SealAll(c, h.state, a[0]);
      if first.Done? {
        var next := Stepped(c, h, first.state);
        SendsCompose(c, next, a[1..], b);
        var x := SendRun(c, next, a[1..]);
        if x.Stream? {
          var y := SendRun(c, x.half, b);
          if y.Stream? { assert [first.data] + (x.items + y.items) == ([first.data] + x.items) + y.items; }
        }
      }
    }
  }

  /** And so is receiving. */
  lemma {:induction false} RecvsCompose(c: Cipher, h: Half, a: seq<Bytes>, b: seq<Bytes>)
    ensures RecvRun(c, h, a + b) == Append(RecvRun(c, h, a), (t: Half) => RecvRun(c, t, b))
    decreases |a|
  {
    if a == [] {
      assert a + b == b;
      var r := RecvRun(c, h, b);
      if r.Stream? { assert [] + r.items == r.items; }
    } else {
      assert (a + b)[1..] == a[1..] + b;
      var first := OpenAll(c, h.state, a[0]);
      if first.Done? {
        var next := Stepped(c, h, first.state);
        RecvsCompose(c, next, a[1..], b);
        var x := RecvRun(c, next, a[1..]);
        if x.Stream? {
          var y := RecvRun(c, x.half, b);
          if y.Stream? { assert [first.data] + (x.items + y.items) == ([first.data] + x.items) + y.items; }
        }
      }
    }
  }

  /** After any number of messages received in order, the receiver has read exactly
      those messages, and its key, nonce and count are those the sender had after
      sending them: the two ends change keys at the same message. */
  lemma InStep(c: Cipher, h: Half, msgs: seq<Bytes>, k: nat)
    requires CipherOk(c) && SendRun(c, h, msgs).Stream? && k <= |msgs|
    ensures |SendRun(c, h, msgs).items| == |msgs|
    ensures var sent := SendRun(c, h, msgs[..k]);
      sent.Stream? && RecvRun(c, h, SendRun(c, h, msgs).items[..k]) == Stream(sent.half, msgs[..k])
  {
    SentPrefix(c, h, msgs, k);
    ReadsWhatWasSent(c, h, msgs[..k]);
  }

  /** The count is the number of messages since the connection began, modulo 256:
      keys change at every 256th message and at no other. */
  lemma {:induction false} CountOfMessages(c: Cipher, h: Half, msgs: seq<Bytes>)
    requires c.mac < MAX_MESSAGE_SIZE && SendRun(c, h, msgs).Stream?
    ensures SendRun(c, h, msgs).half.count == (h.count + |msgs|) % 256
    decreases |msgs|
  {
    if msgs != [] { CountOfMessages(c, Stepped(c, h, SealAll(c, h.state, msgs[0]).state), msgs[1..]); }
  }

  // -------------------------------------------------------------- keys and blocks

  datatype Plain = Stopped | Plain(state: Keyed, items: seq<Bytes>)

  function Behind(item: Bytes, rest: Plain): Plain {
    match rest
    case Stopped => Stopped
    case Plain(t, items) => Plain(t, [item] + items)
  }

  /** Messages sealed one after another under one key, which is never changed. */
  function SealEach(c: Cipher, k: Keyed, msgs: seq<Bytes>): Plain
    requires c.mac < MAX_MESSAGE_SIZE
    decreases |msgs|
  {
    if msgs == [] then Plain(k, [])
    else
      match SealAll(c, k, msgs[0])
      case Failed => Stopped
      case Done(t, d) => Behind(d, SealEach(c, t, msgs[1..]))
  }

  function OpenEach(c: Cipher, k: Keyed, wire: seq<Bytes>): Plain
    decreases |wire|
  {
    if wire == [] then Plain(k, [])
    else
      match OpenAll(c, k, wire[0])
      case Failed => Stopped
      case Done(t, p) => Behind(p, OpenEach(c, t, wire[1..]))
  }

  /** The key a block of messages leaves, which is a new one if it was the 256th of its
      key, and the count. */
  function AsStream(c: Cipher, sealed: Plain, count: nat): Stream
    requires count <= 256
  {
    match sealed
    case Stopped => Broken
    case Plain(t, items) => Stream(if count == 256 then Half(c.rekey(t), 0) else Half(t, count), items)
  }

  /** Up to the 256th message of a key nothing happens to it but the messages; with the
      256th it is changed once. */
  lemma {:induction false} SendsOfOneKey(c: Cipher, h: Half, msgs: seq<Bytes>)
    requires c.mac < MAX_MESSAGE_SIZE && h.count + |msgs| <= 256
    ensures SendRun(c, h, msgs) == AsStream(c, SealEach(c, h.state, msgs), h.count + |msgs|)
    decreases |msgs|
  {
    if msgs != [] {
      var first := SealAll(c, h.state, msgs[0]);
      if first.Done? {
        if |msgs| == 1 {
          assert msgs[1..] == [];
        } else {
          SendsOfOneKey(c, Half(first.state, h.count + 1), msgs[1..]);
        }
      }
    }
  }

  lemma {:induction false} RecvsOfOneKey(c: Cipher, h: Half, wire: seq<Bytes>)
    requires h.count + |wire| <= 256
    ensures RecvRun(c, h, wire) == AsStream(c, OpenEach(c, h.state, wire), h.count + |wire|)
    decreases |wire|
  {
    if wire != [] {
      var first := OpenAll(c, h.state, wire[0]);
      if first.Done? {
        if |wire| == 1 {
          assert wire[1..] == [];
        } else {
          RecvsOfOneKey(c, Half(first.state, h.count + 1), wire[1..]);
        }
      }
    }
  }

  function Joined(a: Plain, b: Plain): Plain
    requires a.Plain?
  {
    match b
    case Stopped => Stopped
    case Plain(t, items) => Plain(t, a.items + items)
  }

  /** Messages in blocks of 256, each sealed under one key, with a new key after each
      whole block. */
  function SealBlocks(c: Cipher, k: Keyed, msgs: seq<Bytes>): Plain
    requires c.mac < MAX_MESSAGE_SIZE
    decreases |msgs|
  {
    if |msgs| < 256 then SealEach(c, k, msgs)
    else
      var block := SealEach(c, k, msgs[..256]);
      if block.Stopped? then Stopped else Joined(block, SealBlocks(c, c.rekey(block.state), msgs[256..]))
  }

  function OpenBlocks(c: Cipher, k: Keyed, wire: seq<Bytes>): Plain
    decreases |wire|
  {
    if |wire| < 256 then OpenEach(c, k, wire)
    else
      var block := OpenEach(c, k, wire[..256]);
      if block.Stopped? then Stopped else Joined(block, OpenBlocks(c, c.rekey(block.state), wire[256..]))
  }

  /** A connection sends any number of messages as blocks of 256, each under one key: the
      key is changed once for each whole block and at no other time. */
  lemma {:induction false} SendsInBlocks(c: Cipher, k: Keyed, msgs: seq<Bytes>)
    requires c.mac < MAX_MESSAGE_SIZE
    ensures SendRun(c, Half(k, 0), msgs) == AsStream(c, SealBlocks(c, k, msgs), |msgs| % 256)
    decreases |msgs|
  {
    hide SendRun, SealEach;
    if |msgs| < 256 {
      SendsOfOneKey(c, Half(k, 0), msgs);
    } else {
      var a, b := msgs[..256], msgs[256..];
      assert msgs == a + b && |b| % 256 == |msgs| % 256;
      SendsOfOneKey(c, Half(k, 0), a);
      SendsCompose(c, Half(k, 0), a, b);
      if SealEach(c, k, a).Plain? { SendsInBlocks(c, c.rekey(SealEach(c, k, a).state), b); }
    }
  }

  /** And it receives so. */
  lemma {:induction false} RecvsInBlocks(c: Cipher, k: Keyed, wire: seq<Bytes>)
    ensures RecvRun(c, Half(k, 0), wire) == AsStream(c, OpenBlocks(c, k, wire), |wire| % 256)
    decreases |wire|
  {
    hide RecvRun, OpenEach;
    if |wire| < 256 {
      RecvsOfOneKey(c, Half(k, 0), wire);
    } else {
      var a, b := wire[..256], wire[256..];
      assert wire == a + b && |b| % 256 == |wire| % 256;
      RecvsOfOneKey(c, Half(k, 0), a);
      RecvsCompose(c, Half(k, 0), a, b);
      if OpenEach(c, k, a).Plain? { RecvsInBlocks(c, c.rekey(OpenEach(c, k, a).state), b); }
    }
  }

  // --------------------------------------------------------------------- the peer

  class Peer {
    const cipher: Cipher
    var handshaking: bool
    var tx: CipherState?
    var rx: CipherState?
    var txRekey: Byte
    var rxRekey: Byte

    ghost predicate Valid()
      reads this, tx, rx
    {
      && CipherOk(cipher) && (tx != null ==> tx.cipher == cipher) && (rx != null ==> rx.cipher == cipher)
      && (tx != null ==> tx != rx)
    }

    predicate Connected()
      reads this
    {
      !handshaking && tx != null && rx != null
    }

    function Sending(): Half
      requires tx != null
      reads this, tx
    {
      Half(tx.state, txRekey)
    }

    function Receiving(): Half
      requires rx != null
      reads this, rx
    {
      Half(rx.state, rxRekey)
    }

    constructor (cipher: Cipher)
      requires CipherOk(cipher)
      ensures Valid() && !Connected() && this.cipher == cipher
    {
      this.cipher := cipher;
      handshaking, tx, rx, txRekey, rxRekey := false, null, null, 0, 0;
    }

    /** The handshake has given the two ciphers. */
    method Connect(sending: Keyed, receiving: Keyed)
      requires Valid()
      modifies this
      ensures Valid() && Connected() && fresh(tx) && fresh(rx)
      ensures Sending() == Half(sending, 0) && Receiving() == Half(receiving, 0)
    {
      handshaking := false;
      tx := new CipherState(cipher, sending);
      rx := new CipherState(cipher, receiving);
      txRekey, rxRekey := 0, 0;
    }

    method Disconnect()
      modifies this
      ensures !Connected() && tx == null && rx == null && !handshaking && txRekey == 0 && rxRekey == 0
    {
      handshaking, tx, rx, txRekey, rxRekey := false, null, null, 0, 0;
    }

    /** Sends as the run of messages says; a cipher that fails ends the connection. */
    method Send(msg: Bytes) returns (data: Bytes, rst: bool, err: Error)
      requires Valid()
      modifies this, tx
      ensures Valid()
      ensures err == SendBeforeConnect <==> !old(Connected())
      ensures old(Connected()) ==>
                match old(SendRun(cipher, Sending(), [msg]))
                case Broken => err == PeersEncrypt && rst && !Connected() && data == []
                case Stream(h, wire) => err == Ok && !rst && Connected() && [data] == wire && Sending() == h
      ensures err in {SendBeforeConnect, Ok} ==> rx == old(rx) && rxRekey == old(rxRekey) && !rst
    {
      if !Connected() { return [], false, SendBeforeConnect; }
      SendOne(cipher, Sending(), msg);
      data, err := Encrypt(tx, msg);
      if err != Ok {
        Disconnect();
        return data, true, err;
      }
      txRekey := (txRekey + 1) % 256;
      if txRekey == 0 { tx.state := cipher.rekey(tx.state); }
      rst := false;
    }

    /** Reads data as the run of messages says; a cipher that fails ends the
        connection. */
    method Recv(data: Bytes) returns (msg: Bytes, rst: bool, err: Error)
      requires Valid()
      modifies this, rx
      ensures Valid()
      ensures err == DataNotConnected <==> !old(Connected())
      ensures old(Connected()) ==>
                match old(RecvRun(cipher, Receiving(), [data]))
                case Broken => err == PeersDecrypt && rst && !Connected() && msg == []
                case Stream(h, msgs) => err == Ok && !rst && Connected() && [msg] == msgs && Receiving() == h
      ensures err in {DataNotConnected, Ok} ==> tx == old(tx) && txRekey == old(txRekey) && !rst
    {
      if !Connected() { return [], false, DataNotConnected; }
      RecvOne(cipher, Receiving(), data);
      msg, err := Decrypt(rx, data);
      if err != Ok {
        Disconnect();
        return msg, true, err;
      }
      rxRekey := (rxRekey + 1) % 256;
      if rxRekey == 0 { rx.state := cipher.rekey(rx.state); }
      rst := false;
    }
  }
}
