/** The message types of the remote protocol, and the greeting that is sent raw before any frame. */
module Net {
  import opened Bytes
  import opened Trees
  import opened Report
  import DeltaEngine

  const MAGIC: Buffer := [114, 105, 112, 115, 121, 110, 99]  // "ripsync"

  datatype Role = Push | Pull

  datatype NetOptions = NetOptions(delete: bool, checksum: bool, preserveMode: bool, preserveMtime: bool,
                                   wholeFile: bool, compress: bool)

  datatype NetEntry = NetEntry(rel: Path, kind: Kind, len: nat, mtime: Time, mode: Mode)

  datatype Request = WantWhole(rel: Path) | WantDelta(rel: Path, sig: DeltaEngine.Signature)

  datatype Data = Whole(bytes: Buffer, zstd: bool) | Patch(delta: DeltaEngine.Delta) | NotFound

  datatype Msg =
    | Greeting(bytes: Buffer)
    | ServerHello(version: u32, ok: bool)
    | Init(role: Role, root: string, options: NetOptions)
    | InitAck
    | Listed(entry: NetEntry)
    | ListDone
    | Ask(request: Request)
    | Answer(data: Data)
    | Finished(tally: Stats)
    | Fatal(text: string)

  /** The messages a list of entries is sent as, before the end of the list. */
  function ListMsgs(es: seq<NetEntry>): seq<Msg> {
    seq(|es|, i requires 0 <= i < |es| => Listed(es[i]))
  }

  lemma {:induction false} ListMsgsSplit(es: seq<NetEntry>)
    requires es != []
    ensures ListMsgs(es) == [Listed(es[0])] + ListMsgs(es[1..])
    ensures ListMsgs(es)[1..] == ListMsgs(es[1..])
  {
  }

  /** Magic, then the version in big-endian order. */
  function GreetingBytes(version: u32): Buffer {
    MAGIC + Reversed(ToLe(version, 4))
  }

  function Reversed(s: Buffer): (r: Buffer)
    ensures |r| == |s|
  {
    if s == [] then [] else Reversed(s[1..]) + [s[0]]
  }

  /** `handshake_responder`'s check of the eleven raw bytes. */
  predicate Greets(bytes: Buffer, version: u32) {
    |bytes| == 11 && bytes[..7] == MAGIC && FromLe(Reversed(bytes[7..])) == version
  }

  lemma {:induction false} ReversedSnoc(s: Buffer, x: byte)
    ensures Reversed(s + [x]) == [x] + Reversed(s)
  {
    if s == [] {
      assert [] + [x] == [x];
    } else {
      assert (s + [x])[1..] == s[1..] + [x];
      ReversedSnoc(s[1..], x);
    }
  }

  lemma {:induction false} ReversedTwice(s: Buffer)
    ensures Reversed(Reversed(s)) == s
  {
    if s != [] {
      ReversedTwice(s[1..]);
      ReversedSnoc(Reversed(s[1..]), s[0]);
    }
  }

  lemma {:induction false} ReversedFour(s: Buffer)
    requires |s| == 4
    ensures Reversed(s) == [s[3], s[2], s[1], s[0]]
  {
    assert s[1..][1..] == s[2..] && s[2..][1..] == s[3..] && s[3..][1..] == [];
    assert Reversed(s[3..]) == [s[3]];
    assert Reversed(s[2..]) == Reversed(s[3..]) + [s[2]];
    assert Reversed(s[1..]) == Reversed(s[2..]) + [s[1]];
  }

  /** A greeting is accepted exactly by a responder of the same version. */
  lemma {:induction false} GreetsSameVersion(ours: u32, theirs: u32)
    ensures Greets(GreetingBytes(ours), theirs) <==> ours == theirs
  {
    var b := GreetingBytes(ours);
    assert b[..7] == MAGIC && b[7..] == Reversed(ToLe(ours, 4));
    ReversedTwice(ToLe(ours, 4));
    assert Pow256(4) == 0x1_0000_0000;
    LeRoundTrip(ours, 4);
  }

  /** And nothing but that greeting is: the seven letters, then the version's four bytes, the high one first. */
  lemma {:induction false} GreetsNothingElse(bytes: Buffer, version: u32)
    ensures Greets(bytes, version) <==>
            bytes == [114, 105, 112, 115, 121, 110, 99] +
                     [version / 256 / 256 / 256 % 256, version / 256 / 256 % 256, version / 256 % 256, version % 256]
  {
    LeDigits(version);
    ReversedFour(ToLe(version, 4));
    GreetsSameVersion(version, version);
    if Greets(bytes, version) {
      LeInverse(Reversed(bytes[7..]));
      ReversedTwice(bytes[7..]);
      assert bytes == bytes[..7] + bytes[7..];
    }
  }
}
