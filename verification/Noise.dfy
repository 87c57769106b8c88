/** Messages between enclaves, cut into Noise packets.  The cipher itself is a
    parameter: any authenticated cipher that works on a key and a nonce. */
module Noise {
  import opened Division

  type Byte = b: nat | b < 256
  type Bytes = seq<Byte>

  /** The longest packet, section 3 of the Noise Protocol Framework. */
  const MAX_MESSAGE_SIZE := 65535

  datatype Keyed = Keyed(key: nat, nonce: nat)

  datatype Outcome = Failed | Done(state: Keyed, data: Bytes)

  datatype Cipher = Cipher(mac: nat, seal: (Keyed, Bytes) -> Outcome, open: (Keyed, Bytes) -> Outcome,
                           rekey: Keyed -> Keyed)

  /** Sealing adds a tag, and opening undoes exactly what sealing does. */
  ghost predicate CipherOk(c: Cipher) {
    && 0 < c.mac < MAX_MESSAGE_SIZE
    && (forall s, p :: var r := c.seal(s, p);
          r.Done? ==> |r.data| == |p| + c.mac && c.open(s, r.data) == Done(r.state, p))
    && (forall s, d :: var r := c.open(s, d);
          r.Done? ==> |d| == |r.data| + c.mac && c.seal(s, r.data) == Done(r.state, d))
  }

  // ------------------------------------------------------------- what is computed

  /** `d` goes before whatever comes next. */
  function Before(d: Bytes, next: Outcome): Outcome {
    match next
    case Failed => Failed
    case Done(t, rest) => Done(t, d + rest)
  }

  /** The message in full packets and a last one. */
  function SealAll(c: Cipher, s: Keyed, p: Bytes): Outcome
    requires c.mac < MAX_MESSAGE_SIZE
    decreases |p|
  {
    var n := MAX_MESSAGE_SIZE - c.mac;
    if |p| <= n then c.seal(s, p)
    else
      match c.seal(s, p[..n])
      case Failed => Failed
      case Done(t, d) => Before(d, SealAll(c, t, p[n..]))
  }

  function OpenAll(c: Cipher, s: Keyed, d: Bytes): Outcome
    decreases |d|
  {
    if d == [] then Done(s, [])
    else
      var n := if |d| < MAX_MESSAGE_SIZE then |d| else MAX_MESSAGE_SIZE;
      match c.open(s, d[..n])
      case Failed => Failed
      case Done(t, p) => Before(p, OpenAll(c, t, d[n..]))
  }

  /** Packets needed for `size` bytes. */
  function NumMacs(c: Cipher, size: nat): nat
    requires c.mac < MAX_MESSAGE_SIZE
  {
    var n := MAX_MESSAGE_SIZE - c.mac;
    if size % n == 0 && size / n > 0 then size / n else size / n + 1
  }

  function FinalSize(c: Cipher, size: nat): (r: nat)
    requires c.mac < MAX_MESSAGE_SIZE
    ensures r >= size
  {
    size + c.mac * NumMacs(c, size)
  }

  /** The size set aside fits one packet, or a full packet and the rest. */
  lemma FinalSizeStep(c: Cipher, size: nat)
    requires 0 < c.mac < MAX_MESSAGE_SIZE
    ensures size <= MAX_MESSAGE_SIZE - c.mac ==> FinalSize(c, size) == size + c.mac
    ensures size > MAX_MESSAGE_SIZE - c.mac ==>
              FinalSize(c, size) == MAX_MESSAGE_SIZE + FinalSize(c, size - (MAX_MESSAGE_SIZE - c.mac))
  {
    var n := MAX_MESSAGE_SIZE - c.mac;
    if size < n {
      Divides(size, n, 0, size);
    } else if size == n {
      Divides(size, n, 1, 0);
    } else {
      MacsStep(c, size);
      var rest := NumMacs(c, size - n);
      assert c.mac * (rest + 1) == c.mac * rest + c.mac;
    }
  }

  lemma MacsStep(c: Cipher, size: nat)
    requires 0 < c.mac < MAX_MESSAGE_SIZE < size + c.mac
    ensures NumMacs(c, size) == NumMacs(c, size - (MAX_MESSAGE_SIZE - c.mac)) + 1
  {
    var n := MAX_MESSAGE_SIZE - c.mac;
    var rest := size - n;
    OneMore(size, n);
    if rest < n { Divides(rest, n, 0, rest); }
  }

  // ------------------------------------------------------------------- properties

  lemma OpenFirst(c: Cipher, s: Keyed, d: Bytes, rest: Bytes)
    requires |d| == MAX_MESSAGE_SIZE && c.open(s, d).Done?
    ensures OpenAll(c, s, d + rest) == Before(c.open(s, d).data, OpenAll(c, c.open(s, d).state, rest))
  {
    assert (d + rest)[..MAX_MESSAGE_SIZE] == d && (d + rest)[MAX_MESSAGE_SIZE..] == rest;
  }

  lemma SealFirst(c: Cipher, s: Keyed, p: Bytes, rest: Bytes)
    requires c.mac < MAX_MESSAGE_SIZE && |p| + c.mac == MAX_MESSAGE_SIZE && rest != [] && c.seal(s, p).Done?
    ensures SealAll(c, s, p + rest) == Before(c.seal(s, p).data, SealAll(c, c.seal(s, p).state, rest))
  {
    assert (p + rest)[..|p|] == p && (p + rest)[|p|..] == rest;
  }

  /** What is sealed has the size set aside for it, and opens, with the two ends in
      the same state afterwards. */
  lemma {:induction false} RoundTrip(c: Cipher, s: Keyed, p: Bytes)
    requires CipherOk(c)
    ensures var r := SealAll(c, s, p);
      r.Done? ==> |r.data| == FinalSize(c, |p|) && OpenAll(c, s, r.data) == Done(r.state, p)
    decreases |p|
  {
    hide FinalSize, OpenAll;
    var n := MAX_MESSAGE_SIZE - c.mac;
    FinalSizeStep(c, |p|);
    if |p| <= n {
      OnePacket(c, s, p);
    } else if SealAll(c, s, p).Done? {
      var first := c.seal(s, p[..n]);
      RoundTrip(c, first.state, p[n..]);
      OpenFirst(c, s, first.data, SealAll(c, first.state, p[n..]).data);
      assert p == p[..n] + p[n..];
    }
  }

  lemma OnePacket(c: Cipher, s: Keyed, p: Bytes)
    requires CipherOk(c) && |p| <= MAX_MESSAGE_SIZE - c.mac
    ensures var r := c.seal(s, p); r.Done? ==> |r.data| == |p| + c.mac && OpenAll(c, s, r.data) == Done(r.state, p)
  {
    var r := c.seal(s, p);
    if r.Done? {
      assert r.data[..|r.data|] == r.data && r.data[|r.data|..] == [];
      assert p + [] == p;
    }
  }

  /** The last packet carries data, unless it is the only one. */
  predicate NoEmptyTail(c: Cipher, d: Bytes) {
    d != [] && (|d| % MAX_MESSAGE_SIZE == c.mac ==> |d| == c.mac)
  }

  /** Whatever opens is what sealing gives, unless it is empty or ends in an empty
      packet. */
  lemma {:induction false} OpensOnlySealed(c: Cipher, s: Keyed, d: Bytes)
    requires CipherOk(c)
    ensures var r := OpenAll(c, s, d); r.Done? ==> (SealAll(c, s, r.data) == Done(r.state, d) <==> NoEmptyTail(c, d))
    decreases |d|, 1
  {
    var r := OpenAll(c, s, d);
    if r.Done? && d != [] {
      if |d| <= MAX_MESSAGE_SIZE {
        LastPacket(c, s, d);
      } else {
        FirstPacket(c, s, d);
      }
    } else if r.Done? {
      RoundTrip(c, s, []);
      FinalSizeStep(c, 0);
    }
  }

  lemma LastPacket(c: Cipher, s: Keyed, d: Bytes)
    requires CipherOk(c) && 0 < |d| <= MAX_MESSAGE_SIZE && OpenAll(c, s, d).Done?
    ensures SealAll(c, s, OpenAll(c, s, d).data) == Done(OpenAll(c, s, d).state, d) && NoEmptyTail(c, d)
  {
    var first := c.open(s, d);
    assert d[..|d|] == d && d[|d|..] == [];
    assert first.data + [] == first.data;
  }

  lemma FirstPacket(c: Cipher, s: Keyed, d: Bytes)
    requires CipherOk(c) && |d| > MAX_MESSAGE_SIZE && OpenAll(c, s, d).Done?
    ensures var r := OpenAll(c, s, d); SealAll(c, s, r.data) == Done(r.state, d) <==> NoEmptyTail(c, d)
    decreases |d|, 0
  {
    var head, tail := d[..MAX_MESSAGE_SIZE], d[MAX_MESSAGE_SIZE..];
    assert d == head + tail;
    var first := c.open(s, head);
    var rest := OpenAll(c, first.state, tail);
    OpenFirst(c, s, head, tail);
    OpensOnlySealed(c, first.state, tail);
    hide OpenAll, SealAll, NoEmptyTail;
    TailTells(c, d);
    if rest.data == [] {
      EmptyTail(c, first.state, tail);
      assert first.data + rest.data == first.data;
      SealShort(c, s, first.data);
    } else {
      SealFirst(c, s, first.data, rest.data);
      TailAlone(c, first.state, tail);
      HeadBack(head, SealAll(c, first.state, rest.data), rest.state, tail);
    }
  }

  lemma TailTells(c: Cipher, d: Bytes)
    requires 0 < c.mac < MAX_MESSAGE_SIZE < |d|
    ensures var tail := d[MAX_MESSAGE_SIZE..]; NoEmptyTail(c, d) <==> NoEmptyTail(c, tail) && |tail| != c.mac
  {
    OneMore(|d|, MAX_MESSAGE_SIZE);
    if |d| == MAX_MESSAGE_SIZE + c.mac { Divides(c.mac, MAX_MESSAGE_SIZE, 0, c.mac); }
  }

  lemma SealShort(c: Cipher, s: Keyed, p: Bytes)
    requires c.mac < MAX_MESSAGE_SIZE && |p| + c.mac <= MAX_MESSAGE_SIZE
    ensures SealAll(c, s, p) == c.seal(s, p)
  {
  }

  lemma HeadBack(head: Bytes, next: Outcome, t: Keyed, tail: Bytes)
    ensures Before(head, next) == Done(t, head + tail) <==> next == Done(t, tail)
  {
    if next.Done? && head + next.data == head + tail {
      assert (head + next.data)[|head|..] == next.data && (head + tail)[|head|..] == tail;
    }
  }

  lemma EmptyTail(c: Cipher, s: Keyed, d: Bytes)
    requires CipherOk(c) && d != [] && OpenAll(c, s, d).Done? && OpenAll(c, s, d).data == []
    ensures |d| == c.mac
  {
    if |d| <= MAX_MESSAGE_SIZE { assert d[..|d|] == d; }
  }

  lemma TailAlone(c: Cipher, s: Keyed, d: Bytes)
    requires CipherOk(c) && d != [] && OpenAll(c, s, d).Done? && OpenAll(c, s, d).data != []
    ensures |d| != c.mac
  {
    if |d| <= MAX_MESSAGE_SIZE { assert d[..|d|] == d && d[|d|..] == []; }
  }

  // ---------------------------------------------------------------- the two loops

  datatype Error = Ok | PeersEncrypt | PeersDecrypt | SendBeforeConnect | DataNotConnected

  class CipherState {
    const cipher: Cipher
    var state: Keyed

    constructor (cipher: Cipher, state: Keyed)
      ensures this.cipher == cipher && this.state == state
    {
      this.cipher, this.state := cipher, state;
    }

    /** Encrypts `size` bytes in place, where there is room for the tag behind them.
        No packet is longer than the protocol allows. */
    method EncryptInPlace(buf: array<Byte>, start: nat, size: nat) returns (ok: bool)
      requires CipherOk(cipher) && start + size + cipher.mac <= buf.Length && size + cipher.mac <= MAX_MESSAGE_SIZE
      modifies this`state, buf
      ensures var r := cipher.seal(old(state), old(buf[start..start + size]));
        && (ok <==> r.Done?)
        && (ok ==> state == r.state && buf[..] == old(buf[..start]) + r.data + old(buf[start + |r.data|..]))
    {
      var r := cipher.seal(state, buf[start..start + size]);
      if r.Failed? { return false; }
      state := r.state;
      WriteAt(buf, start, r.data);
      return true;
    }

    /** Decrypts in place; the plaintext is shorter by the tag. */
    method DecryptInPlace(buf: array<Byte>, start: nat, size: nat) returns (ok: bool, n: nat)
      requires CipherOk(cipher) && start + size <= buf.Length && size <= MAX_MESSAGE_SIZE
      modifies this`state, buf
      ensures var r := cipher.open(old(state), old(buf[start..start + size]));
        && (ok <==> r.Done?)
        && (ok ==> state == r.state && n == |r.data| && n + cipher.mac == size
                   && buf[..] == old(buf[..start]) + r.data + old(buf[start + n..]))
    {
      var r := cipher.open(state, buf[start..start + size]);
      if r.Failed? { return false, 0; }
      state := r.state;
      WriteAt(buf, start, r.data);
      return true, |r.data|;
    }
  }

  method WriteAt(buf: array<Byte>, start: nat, data: Bytes)
    requires start + |data| <= buf.Length
    modifies buf
    ensures buf[..] == old(buf[..start]) + data + old(buf[start + |data|..])
  {
    forall i | 0 <= i < |data| {
      buf[start + i] := data[i];
    }
  }

  /** What is left to do after `p[..done]` has become `out`. */
  ghost predicate SealedSoFar(c: Cipher, s: Keyed, p: Bytes, t: Keyed, done: nat, out: Bytes)
    requires c.mac < MAX_MESSAGE_SIZE && done <= |p|
  {
    SealAll(c, s, p) == Before(out, SealAll(c, t, p[done..]))
  }

  lemma SealMore(c: Cipher, s: Keyed, p: Bytes, t: Keyed, done: nat, out: Bytes)
    requires c.mac < MAX_MESSAGE_SIZE && done + (MAX_MESSAGE_SIZE - c.mac) < |p| && SealedSoFar(c, s, p, t, done, out)
    ensures var n := MAX_MESSAGE_SIZE - c.mac; var r := c.seal(t, p[done..done + n]);
      && (r.Failed? ==> SealAll(c, s, p) == Failed)
      && (r.Done? ==> SealedSoFar(c, s, p, r.state, done + n, out + r.data))
  {
    var n := MAX_MESSAGE_SIZE - c.mac;
    assert p[done..][..n] == p[done..done + n] && p[done..][n..] == p[done + n..];
    var r := c.seal(t, p[done..done + n]);
    if r.Done? {
      var rest := SealAll(c, r.state, p[done + n..]);
      if rest.Done? { assert (out + r.data) + rest.data == out + (r.data + rest.data); }
    }
  }

  lemma SealLast(c: Cipher, s: Keyed, p: Bytes, t: Keyed, done: nat, out: Bytes)
    requires c.mac < MAX_MESSAGE_SIZE && done <= |p| <= done + (MAX_MESSAGE_SIZE - c.mac) && SealedSoFar(c, s, p, t, done, out)
    ensures SealAll(c, s, p) == Before(out, c.seal(t, p[done..]))
  {
  }

  lemma NothingSealed(c: Cipher, s: Keyed, p: Bytes)
    requires 0 < c.mac < MAX_MESSAGE_SIZE
    ensures SealedSoFar(c, s, p, s, 0, []) && FinalSize(c, |p|) > 0
  {
    FinalSizeStep(c, |p|);
    assert p[0..] == p;
    var r := SealAll(c, s, p);
    if r.Done? { assert [] + r.data == r.data; }
  }

  lemma TagLength(c: Cipher)
    requires CipherOk(c)
    ensures 0 < c.mac < MAX_MESSAGE_SIZE
    ensures forall s, p :: c.seal(s, p).Done? ==> |c.seal(s, p).data| == |p| + c.mac
  {
  }

  /** Copies the next stretch of the message behind what is done and encrypts it. */
  method EncryptPacket(cs: CipherState, buf: array<Byte>, start: nat, plaintext: Bytes, from: nat, size: nat)
    returns (ok: bool)
    requires CipherOk(cs.cipher) && start + size + cs.cipher.mac <= buf.Length && size + cs.cipher.mac <= MAX_MESSAGE_SIZE
    requires from + size <= |plaintext|
    modifies cs`state, buf
    ensures var r := cs.cipher.seal(old(cs.state), plaintext[from..from + size]);
      && (ok <==> r.Done?)
      && (ok ==> cs.state == r.state && |r.data| == size + cs.cipher.mac
                 && buf[..start + |r.data|] == old(buf[..start]) + r.data)
  {
    ghost var r := cs.cipher.seal(cs.state, plaintext[from..from + size]);
    WriteAt(buf, start, plaintext[from..from + size]);
    assert buf[start..start + size] == plaintext[from..from + size];
    assert buf[..start] == old(buf[..start]);
    ok := cs.EncryptInPlace(buf, start, size);
    if ok { assert buf[..start + |r.data|] == old(buf[..start]) + r.data; }
  }

  method CountMacs(c: Cipher, origSize: nat) returns (numMacs: nat)
    requires c.mac < MAX_MESSAGE_SIZE
    ensures numMacs == NumMacs(c, origSize)
  {
    var maxEncryptSize := MAX_MESSAGE_SIZE - c.mac;
    numMacs := origSize / maxEncryptSize + 1;
    if origSize % maxEncryptSize == 0 && numMacs > 1 { numMacs := numMacs - 1; }
  }

  method CiphertextSize(c: Cipher, origSize: nat) returns (finalSize: nat)
    requires c.mac < MAX_MESSAGE_SIZE
    ensures finalSize == FinalSize(c, origSize)
  {
    hide NumMacs;
    var numMacs := CountMacs(c, origSize);
    return origSize + c.mac * numMacs;
  }

  method Encrypt(cs: CipherState, plaintext: Bytes) returns (ciphertext: Bytes, err: Error)
    requires CipherOk(cs.cipher)
    modifies cs`state
    ensures var r := SealAll(cs.cipher, old(cs.state), plaintext);
      && (err == Ok <==> r.Done?) && (err == Ok ==> ciphertext == r.data && cs.state == r.state)
      && (err != Ok ==> err == PeersEncrypt && ciphertext == [])
  {
    hide CipherOk, FinalSize, SealAll, SealedSoFar;
    var macSize := cs.cipher.mac;
    assert 0 < macSize < MAX_MESSAGE_SIZE by { TagLength(cs.cipher); }
    var maxEncryptSize := MAX_MESSAGE_SIZE - macSize;
    var finalSize := CiphertextSize(cs.cipher, |plaintext|);
    var buf := new Byte[finalSize](_ => 0);
    var start: nat, plaintextStart: nat := 0, 0;
    NothingSealed(cs.cipher, cs.state, plaintext);
    while start < finalSize
      invariant plaintextStart <= |plaintext| && macSize == cs.cipher.mac
      invariant start < finalSize ==>
                  && start + FinalSize(cs.cipher, |plaintext| - plaintextStart) == finalSize
                  && SealedSoFar(cs.cipher, old(cs.state), plaintext, cs.state, plaintextStart, buf[..start])
      invariant start >= finalSize ==> SealAll(cs.cipher, old(cs.state), plaintext) == Done(cs.state, buf[..])
    {
      var rest := |plaintext| - plaintextStart;
      FinalSizeStep(cs.cipher, rest);
      var size := if maxEncryptSize < rest then maxEncryptSize else rest;
      if maxEncryptSize < rest {
        SealMore(cs.cipher, old(cs.state), plaintext, cs.state, plaintextStart, buf[..start]);
      } else {
        SealLast(cs.cipher, old(cs.state), plaintext, cs.state, plaintextStart, buf[..start]);
        assert plaintext[plaintextStart..plaintextStart + size] == plaintext[plaintextStart..];
      }
      var ok := EncryptPacket(cs, buf, start, plaintext, plaintextStart, size);
      if !ok { return [], PeersEncrypt; }
      assert buf[..finalSize] == buf[..];
      plaintextStart := plaintextStart + size;
      start := start + MAX_MESSAGE_SIZE;
    }
    return buf[..], Ok;
  }

  /** What is left to do after `d[..read]` has become `out`. */
  ghost predicate OpenedSoFar(c: Cipher, s: Keyed, d: Bytes, t: Keyed, read: nat, out: Bytes)
    requires read <= |d|
  {
    OpenAll(c, s, d) == Before(out, OpenAll(c, t, d[read..]))
  }

  lemma OpenMore(c: Cipher, s: Keyed, d: Bytes, t: Keyed, read: nat, size: nat, out: Bytes)
    requires read < |d| && OpenedSoFar(c, s, d, t, read, out)
    requires size == if |d| - read < MAX_MESSAGE_SIZE then |d| - read else MAX_MESSAGE_SIZE
    ensures var r := c.open(t, d[read..read + size]);
      && (r.Failed? ==> OpenAll(c, s, d) == Failed)
      && (r.Done? ==> OpenedSoFar(c, s, d, r.state, read + size, out + r.data))
  {
    assert d[read..][..size] == d[read..read + size] && d[read..][size..] == d[read + size..];
    var r := c.open(t, d[read..read + size]);
    if r.Done? {
      var rest := OpenAll(c, r.state, d[read + size..]);
      if rest.Done? { assert (out + r.data) + rest.data == out + (r.data + rest.data); }
    }
  }

  lemma NothingOpened(c: Cipher, s: Keyed, d: Bytes)
    ensures OpenedSoFar(c, s, d, s, 0, [])
  {
    assert d[0..] == d;
    var r := OpenAll(c, s, d);
    if r.Done? { assert [] + r.data == r.data; }
  }

  lemma AllOpened(c: Cipher, s: Keyed, d: Bytes, t: Keyed, out: Bytes)
    requires OpenedSoFar(c, s, d, t, |d|, out)
    ensures OpenAll(c, s, d) == Done(t, out)
  {
    assert out + [] == out;
  }

  /** Copies the next packet behind the plaintext so far and decrypts it. */
  method DecryptPacket(cs: CipherState, buf: array<Byte>, start: nat, packet: Bytes) returns (ok: bool, n: nat)
    requires CipherOk(cs.cipher) && start + |packet| <= buf.Length && |packet| <= MAX_MESSAGE_SIZE
    modifies cs`state, buf
    ensures var r := cs.cipher.open(old(cs.state), packet);
      && (ok <==> r.Done?)
      && (ok ==> cs.state == r.state && n == |r.data| && n + cs.cipher.mac == |packet|
                 && buf[..start + n] == old(buf[..start]) + r.data)
  {
    WriteAt(buf, start, packet);
    assert buf[start..start + |packet|] == packet;
    assert buf[..start] == old(buf[..start]);
    ok, n := cs.DecryptInPlace(buf, start, |packet|);
    if ok { assert buf[..start + n] == old(buf[..start]) + cs.cipher.open(old(cs.state), packet).data; }
  }

  method Decrypt(cs: CipherState, ciphertext: Bytes) returns (plaintext: Bytes, err: Error)
    requires CipherOk(cs.cipher)
    modifies cs`state
    ensures var r := OpenAll(cs.cipher, old(cs.state), ciphertext);
      && (err == Ok <==> r.Done?) && (err == Ok ==> plaintext == r.data && cs.state == r.state)
      && (err != Ok ==> err == PeersDecrypt && plaintext == [])
  {
    hide CipherOk, OpenAll, OpenedSoFar;
    var buf := new Byte[|ciphertext|](_ => 0);
    var start: nat, plaintextStart: nat := 0, 0;
    NothingOpened(cs.cipher, cs.state, ciphertext);
    while start < |ciphertext|
      invariant plaintextStart <= start && plaintextStart <= |ciphertext|
      invariant var read := if start < |ciphertext| then start else |ciphertext|;
        OpenedSoFar(cs.cipher, old(cs.state), ciphertext, cs.state, read, buf[..plaintextStart])
    {
      var left := |ciphertext| - start;
      var size := if MAX_MESSAGE_SIZE < left then MAX_MESSAGE_SIZE else left;
      OpenMore(cs.cipher, old(cs.state), ciphertext, cs.state, start, size, buf[..plaintextStart]);
      var ok, n := DecryptPacket(cs, buf, plaintextStart, ciphertext[start..start + size]);
      if !ok { return [], PeersDecrypt; }
      plaintextStart := plaintextStart + n;
      start := start + MAX_MESSAGE_SIZE;
    }
    AllOpened(cs.cipher, old(cs.state), ciphertext, cs.state, buf[..plaintextStart]);
    return buf[..plaintextStart], Ok;
  }
}
