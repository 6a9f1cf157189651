/** The byte stream behind the build identity (src/build_identity.rs). Names
    and contents are the bytes of the source's strings; SHA-256 is a parameter. */
module BuildIdentity {
  import opened Common

  type byte = n: int | 0 <= n < 0x100

  const U64_LIMIT: nat := 0x1_0000_0000_0000_0000

  datatype Component = Component(name: seq<byte>, content: seq<byte>)

  /** The lowest `width` bytes of a number, highest first. */
  function BigEndian(n: nat, width: nat): (s: seq<byte>)
    ensures |s| == width
  {
    if width == 0 then [] else BigEndian(n / 0x100, width - 1) + [n % 0x100]
  }

  function Number(s: seq<byte>): nat {
    if s == [] then 0 else Number(s[..|s| - 1]) * 0x100 + s[|s| - 1]
  }

  function Power(width: nat): nat {
    if width == 0 then 1 else Power(width - 1) * 0x100
  }

  lemma {:induction false} NumberOfBigEndian(n: nat, width: nat)
    requires n < Power(width)
    ensures Number(BigEndian(n, width)) == n
  {
    if width > 0 {
      assert n / 0x100 < Power(width - 1);
      NumberOfBigEndian(n / 0x100, width - 1);
      assert BigEndian(n, width)[..width - 1] == BigEndian(n / 0x100, width - 1);
    }
  }

  lemma {:induction false} BigEndianOfNumber(s: seq<byte>)
    ensures BigEndian(Number(s), |s|) == s && Number(s) < Power(|s|)
  {
    if s != [] {
      var init := s[..|s| - 1];
      BigEndianOfNumber(init);
      assert Number(s) / 0x100 == Number(init) && Number(s) % 0x100 == s[|s| - 1];
    }
  }

  lemma EightBytes()
    ensures Power(8) == U64_LIMIT
  {
    assert Power(4) == 0x1_0000_0000;
  }

  /** `(s.len() as u64).to_be_bytes()` and then the bytes. */
  function Framed(s: seq<byte>): seq<byte> {
    BigEndian(|s|, 8) + s
  }

  function Stream(components: seq<Component>): seq<byte> {
    if components == [] then []
    else Framed(components[0].name) + Framed(components[0].content) + Stream(components[1..])
  }

  predicate Addressable(components: seq<Component>) {
    forall c | c in components :: |c.name| < U64_LIMIT && |c.content| < U64_LIMIT
  }

  // ----- undoing the framing -----

  /** The first framed item and what follows it. */
  function TakeItem(bytes: seq<byte>): (r: Option<(seq<byte>, seq<byte>)>)
    ensures r.Some? ==> |r.value.1| + 8 <= |bytes|
  {
    if |bytes| < 8 then None
    else
      var length := Number(bytes[..8]);
      var rest := bytes[8..];
      if length > |rest| then None else Some((rest[..length], rest[length..]))
  }

  function Parse(bytes: seq<byte>): Option<seq<Component>>
    decreases |bytes|
  {
    if bytes == [] then Some([])
    else
      var name := TakeItem(bytes);
      if name.None? then None
      else
        var content := TakeItem(name.value.1);
        if content.None? then None
        else
          var others := Parse(content.value.1);
          if others.None? then None else Some([Component(name.value.0, content.value.0)] + others.value)
  }

  lemma TakeFramed(s: seq<byte>, rest: seq<byte>)
    requires |s| < U64_LIMIT
    ensures TakeItem(Framed(s) + rest) == Some((s, rest))
  {
    var bytes := Framed(s) + rest;
    EightBytes();
    NumberOfBigEndian(|s|, 8);
    assert bytes[..8] == BigEndian(|s|, 8);
    assert bytes[8..] == s + rest;
    assert (s + rest)[..|s|] == s && (s + rest)[|s|..] == rest;
  }

  lemma {:induction false} ParseUndoesStream(components: seq<Component>)
    requires Addressable(components)
    ensures Parse(Stream(components)) == Some(components)
  {
    if components != [] {
      var c := components[0];
      var tail := Stream(components[1..]);
      assert c in components;
      assert Stream(components) == Framed(c.name) + (Framed(c.content) + tail);
      TakeFramed(c.name, Framed(c.content) + tail);
      TakeFramed(c.content, tail);
      ParseUndoesStream(components[1..]);
      assert components == [c] + components[1..];
    }
  }

  lemma ItemsAreFramed(bytes: seq<byte>)
    requires TakeItem(bytes).Some?
    ensures var (item, rest) := TakeItem(bytes).value; |item| < U64_LIMIT && bytes == Framed(item) + rest
  {
    hide BigEndian, Number, Power;
    var (item, rest) := TakeItem(bytes).value;
    EightBytes();
    BigEndianOfNumber(bytes[..8]);
    assert bytes == bytes[..8] + (item + rest);
  }

  /** The parser accepts nothing but streams. */
  lemma {:induction false} StreamUndoesParse(bytes: seq<byte>)
    requires Parse(bytes).Some?
    ensures Stream(Parse(bytes).value) == bytes && Addressable(Parse(bytes).value)
    decreases |bytes|
  {
    if bytes != [] {
      ItemsAreFramed(bytes);
      var rest := TakeItem(bytes).value.1;
      ItemsAreFramed(rest);
      var others := TakeItem(rest).value.1;
      StreamUndoesParse(others);
      assert Parse(bytes).value[1..] == Parse(others).value;
    }
  }

  /** Different builds feed different bytes to the hash. */
  lemma StreamIsInjective(a: seq<Component>, b: seq<Component>)
    requires Addressable(a) && Addressable(b)
    ensures Stream(a) == Stream(b) <==> a == b
  {
    ParseUndoesStream(a);
    ParseUndoesStream(b);
  }

  // ----- the program -----

  class DigestContext {
    var fed: seq<byte>

    constructor ()
      ensures fed == []
    {
      fed := [];
    }

    method Update(bytes: seq<byte>)
      modifies this
      ensures fed == old(fed) + bytes
    {
      fed := fed + bytes;
    }
  }

  method UpdateComponent(context: DigestContext, component: Component)
    modifies context
    ensures context.fed == old(context.fed) + Stream([component])
  {
    context.Update(BigEndian(|component.name|, 8));
    context.Update(component.name);
    context.Update(BigEndian(|component.content|, 8));
    context.Update(component.content);
    assert Stream([component]) == Framed(component.name) + Framed(component.content);
  }

  lemma {:induction false} StreamConcat(a: seq<Component>, b: seq<Component>)
    ensures Stream(a + b) == Stream(a) + Stream(b)
  {
    if a == [] {
      assert a + b == b;
    } else {
      assert (a + b)[1..] == a[1..] + b;
      StreamConcat(a[1..], b);
    }
  }

  method UpdateAll(context: DigestContext, components: seq<Component>)
    modifies context
    ensures context.fed == old(context.fed) + Stream(components)
  {
    for i := 0 to |components|
      invariant context.fed == old(context.fed) + Stream(components[..i])
    {
      UpdateComponent(context, components[i]);
      StreamConcat(components[..i], [components[i]]);
      assert components[..i + 1] == components[..i] + [components[i]];
    }
    assert components[..|components|] == components;
  }

  function HexDigit(n: int): char
    requires 0 <= n < 16
  {
    "0123456789abcdef"[n]
  }

  function Hex(bytes: seq<byte>): string {
    if bytes == [] then "" else [HexDigit(bytes[0] / 16), HexDigit(bytes[0] % 16)] + Hex(bytes[1..])
  }

  lemma {:induction false} HexIsInjective(a: seq<byte>, b: seq<byte>)
    requires Hex(a) == Hex(b)
    ensures a == b
  {
    if a != [] && b != [] {
      DigitsIdentifyByte(a[0], b[0]);
      assert Hex(a)[0] == Hex(b)[0] && Hex(a)[1] == Hex(b)[1];
      assert Hex(a)[2..] == Hex(a[1..]) && Hex(b)[2..] == Hex(b[1..]);
      HexIsInjective(a[1..], b[1..]);
      assert a == [a[0]] + a[1..] && b == [b[0]] + b[1..];
    }
  }

  lemma DigitsIdentifyByte(a: byte, b: byte)
    ensures HexDigit(a / 16) == HexDigit(b / 16) && HexDigit(a % 16) == HexDigit(b % 16) ==> a == b
  {
    DigitsIdentify(a / 16, b / 16);
    DigitsIdentify(a % 16, b % 16);
  }

  lemma DigitsIdentify(m: int, n: int)
    requires 0 <= m < 16 && 0 <= n < 16
    ensures HexDigit(m) == HexDigit(n) ==> m == n
  {
  }

  function NamesOf(sources: seq<Component>): seq<seq<byte>> {
    seq(|sources|, i requires 0 <= i < |sources| => sources[i].name)
  }

  predicate ManifestIsConsistent(names: seq<seq<byte>>, sources: seq<Component>) {
    && |names| == |sources|
    && forall i | 0 <= i < |names| :: names[i] == sources[i].name && names[i] !in names[..i]
  }

  /** The declared names are the names of the sources, in order, and none twice. */
  lemma ConsistentMeansDeclaredOnce(names: seq<seq<byte>>, sources: seq<Component>)
    ensures ManifestIsConsistent(names, sources)
            <==> names == NamesOf(sources) && forall i, j | 0 <= i < j < |names| :: names[i] != names[j]
  {
    if ManifestIsConsistent(names, sources) {
      forall i, j | 0 <= i < j < |names| ensures names[i] != names[j] {
        assert names[..j][i] == names[i];
      }
    }
  }

  /** None where the source panics. */
  method ExecutableBuildHash(names: seq<seq<byte>>, sources: seq<Component>, metadata: seq<Component>,
                             sha256: seq<byte> -> seq<byte>)
    returns (hash: Option<string>)
    ensures hash == if ManifestIsConsistent(names, sources) then Some(Hex(sha256(Stream(sources + metadata)))) else None
  {
    if !ManifestIsConsistent(names, sources) {
      return None;
    }
    var context := new DigestContext();
    UpdateAll(context, sources);
    UpdateAll(context, metadata);
    StreamConcat(sources, metadata);
    assert context.fed == Stream(sources + metadata);
    return Some(Hex(sha256(context.fed)));
  }

  /** Two builds with as many metadata files share an identity only if they are
      the same build or their own streams are a collision of the hash function. */
  lemma SameHashSameBuild(sourcesA: seq<Component>, metadataA: seq<Component>,
                          sourcesB: seq<Component>, metadataB: seq<Component>, sha256: seq<byte> -> seq<byte>)
    requires Addressable(sourcesA + metadataA) && Addressable(sourcesB + metadataB)
    requires |metadataA| == |metadataB|
    requires Hex(sha256(Stream(sourcesA + metadataA))) == Hex(sha256(Stream(sourcesB + metadataB)))
    ensures || (sourcesA == sourcesB && metadataA == metadataB)
            || (&& Stream(sourcesA + metadataA) != Stream(sourcesB + metadataB)
                && sha256(Stream(sourcesA + metadataA)) == sha256(Stream(sourcesB + metadataB)))
  {
    var a, b := sourcesA + metadataA, sourcesB + metadataB;
    HexIsInjective(sha256(Stream(a)), sha256(Stream(b)));
    StreamIsInjective(a, b);
    if a == b {
      assert sourcesA == a[..|a| - |metadataA|] && sourcesB == b[..|b| - |metadataB|];
      assert metadataA == a[|a| - |metadataA|..] && metadataB == b[|b| - |metadataB|..];
    }
  }
}
