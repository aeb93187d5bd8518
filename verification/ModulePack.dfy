/** The boot image: the packer that writes it (ModulePacker/main.c) and the loader that
    reads it (moduleLoader.c). */
module ModulePack {
  import opened Arith
  import opened Octets
  import opened Sync

  const BUFFER_SIZE := 128
  const WORD := 0x1_0000_0000

  type Module = seq<Byte>

  /** The `k` lowest bytes of `n`, the least significant first. */
  function Le(n: nat, k: nat): (b: seq<Byte>)
    ensures |b| == k
    decreases n, k
  {
    if k == 0 then [] else [(n % 256) as Byte] + Le(n / 256, k - 1)
  }

  function Value(b: seq<Byte>): nat {
    if b == [] then 0 else b[0] as nat + 256 * Value(b[1..])
  }

  function Power(k: nat): nat {
    if k == 0 then 1 else 256 * Power(k - 1)
  }

  /** What the `k` lowest bytes leave out. */
  function Cut(n: nat, k: nat): nat
    decreases k
  {
    if k == 0 then n else Cut(n / 256, k - 1)
  }

  lemma {:induction false} ValueOfLe(n: nat, k: nat)
    ensures Value(Le(n, k)) < Power(k)
    ensures n == Value(Le(n, k)) + Power(k) * Cut(n, k)
    decreases k
  {
    if k > 0 {
      var q := Cut(n / 256, k - 1);
      ValueOfLe(n / 256, k - 1);
      assert Le(n, k)[1..] == Le(n / 256, k - 1);
      assert Power(k) * q == 256 * (Power(k - 1) * q);
    }
  }

  /** A uint32_t as fwrite puts it; what does not fit is cut off. */
  function Le32(n: nat): (b: seq<Byte>)
    ensures |b| == 4
  {
    Le(n, 4)
  }

  function Uint32(b: seq<Byte>): nat
    requires |b| >= 4
  {
    Value(b[..4])
  }

  /** What is left of a size: all of it only below 2^32. */
  lemma Uint32OfLe32(n: nat, rest: seq<Byte>)
    ensures var u := Uint32(Le32(n) + rest);
      u == n % WORD && (u == n <==> n < WORD)
  {
    assert (Le32(n) + rest)[..4] == Le32(n);
    ValueOfLe(n, 4);
    assert Power(4) == WORD;
    DivUnique(n, WORD, Cut(n, 4), Value(Le32(n)));
  }

  lemma {:induction false} LeOfValue(b: seq<Byte>)
    ensures Le(Value(b), |b|) == b
  {
    if b != [] {
      LeOfValue(b[1..]);
      assert Value(b) % 256 == b[0] as nat && Value(b) / 256 == Value(b[1..]);
    }
  }

  /** Four bytes are determined by the number that they hold. */
  lemma Le32Unique(b: seq<Byte>, n: nat)
    requires |b| == 4 && Uint32(b) == n % WORD
    ensures b == Le32(n)
  {
    Uint32OfLe32(n, []);
    assert Le32(n) + [] == Le32(n) && Le32(n)[..4] == Le32(n) && b[..4] == b;
    LeOfValue(b);
    LeOfValue(Le32(n));
  }

  /** What is written of the modules. */
  function Packed(modules: seq<Module>): seq<Byte> {
    if modules == [] then [] else Le32(|modules[0]|) + modules[0] + Packed(modules[1..])
  }

  function Payload(modules: seq<Module>): seq<Byte> {
    Le32(|modules|) + Packed(modules)
  }

  lemma PackedStep(bytes: seq<Byte>, files: seq<Module>, i: nat)
    requires i < |files|
    ensures bytes + Packed(files[i..]) == bytes + Le32(|files[i]|) + files[i] + Packed(files[i + 1..])
  {
  }

  // The packer

  class Image {
    /** The target file. */
    var bytes: seq<Byte>

    constructor ()
      ensures bytes == []
    {
      bytes := [];
    }

    /** write_file: chunk by chunk, until fread has met the end of the source. */
    method WriteFile(source: seq<Byte>)
      modifies this
      ensures bytes == old(bytes) + source
    {
      var pos, eof := 0, false;
      while !eof
        invariant 0 <= pos <= |source| && bytes == old(bytes) + source[..pos] && (eof ==> pos == |source|)
        decreases if eof then 0 else 1, |source| - pos
      {
        var read := if pos + BUFFER_SIZE <= |source| then BUFFER_SIZE else |source| - pos;
        assert source[..pos + read] == source[..pos] + source[pos..pos + read];
        bytes := bytes + source[pos..pos + read];
        pos := pos + read;
        eof := read < BUFFER_SIZE;
      }
      assert source[..pos] == source;
    }

    /** write_size: four more bytes, from which the loader reads the length of the file
        modulo 2^32. */
    method WriteSize(source: seq<Byte>)
      modifies this
      ensures |bytes| == |old(bytes)| + 4 && bytes[..|old(bytes)|] == old(bytes)
      ensures Uint32(bytes[|old(bytes)|..]) == |source| % WORD
    {
      ghost var was := bytes;
      var size := |source| % WORD;
      bytes := bytes + Le32(size);
      Uint32OfLe32(size, []);
      assert bytes[|was|..] == Le32(size) == Le32(size) + [];
    }

    /** buildImage on readable files: the kernel and its modules. */
    method BuildImage(files: seq<seq<Byte>>)
      requires files != [] && bytes == []
      modifies this
      ensures bytes == files[0] + Payload(files[1..])
    {
      WriteFile(files[0]);
      var extraBinaries := |files| - 1;
      bytes := bytes + Le32(extraBinaries);
      var i := 1;
      assert files[0] + Le32(extraBinaries) + Packed(files[1..]) == files[0] + Payload(files[1..]);
      while i < |files|
        invariant 1 <= i <= |files| && bytes + Packed(files[i..]) == files[0] + Payload(files[1..])
      {
        PackedStep(bytes, files, i);
        ghost var was := bytes;
        WriteSize(files[i]);
        Le32Unique(bytes[|was|..], |files[i]|);
        assert bytes == was + Le32(|files[i]|);
        WriteFile(files[i]);
        i := i + 1;
      }
      assert bytes + [] == bytes;
    }
  }

  // The loader

  /** The `count` modules that the loader finds from some place on; None if it would read
      past the end. */
  function LoadFrom(b: seq<Byte>, count: nat): Option<seq<Module>> {
    if count == 0 then Some([])
    else if |b| < 4 then None
    else
      var size := Uint32(b);
      if |b| < 4 + size then None
      else
        var rest := LoadFrom(b[4 + size..], count - 1);
        if rest.None? then None else Some([b[4..4 + size]] + rest.value)
  }

  function Load(payload: seq<Byte>): Option<seq<Module>> {
    if |payload| < 4 then None else LoadFrom(payload[4..], Uint32(payload))
  }

  predicate Fits(m: Module) {
    |m| < WORD
  }

  lemma PackedFirst(modules: seq<Module>)
    requires modules != []
    ensures var b, m := Packed(modules), modules[0];
      && |b| >= 4 && Uint32(b) < WORD
      && (Fits(m) ==> Uint32(b) == |m| && |b| >= 4 + |m| && b[4..4 + |m|] == m && b[4 + |m|..] == Packed(modules[1..]))
  {
    var m := modules[0];
    assert Packed(modules) == Le32(|m|) + (m + Packed(modules[1..]));
    Uint32OfLe32(|m|, m + Packed(modules[1..]));
  }

  /** The loader meets one module. */
  lemma LoadOne(b: seq<Byte>, count: nat)
    requires count > 0 && |b| >= 4
    ensures var size := Uint32(b);
      LoadFrom(b, count) == if |b| < 4 + size || LoadFrom(b[4 + size..], count - 1).None? then None
                            else Some([b[4..4 + size]] + LoadFrom(b[4 + size..], count - 1).value)
  {
  }

  lemma LoadFitting(modules: seq<Module>)
    requires modules != [] && Fits(modules[0])
    ensures LoadFrom(Packed(modules), |modules|) == Some(modules)
            <==> LoadFrom(Packed(modules[1..]), |modules| - 1) == Some(modules[1..])
  {
    var b, n := Packed(modules), 4 + |modules[0]|;
    PackedFirst(modules);
    LoadOne(b, |modules|);
    assert Uint32(b) == |modules[0]| && b[4..n] == modules[0] && b[n..] == Packed(modules[1..]);
    var rest := LoadFrom(b[n..], |modules| - 1);
    if rest.Some? {
      Cons(modules, rest.value);
    }
  }

  lemma Cons(modules: seq<Module>, tail: seq<Module>)
    requires modules != []
    ensures [modules[0]] + tail == modules <==> tail == modules[1..]
  {
  }

  lemma LoadTruncated(modules: seq<Module>)
    requires modules != [] && !Fits(modules[0])
    ensures LoadFrom(Packed(modules), |modules|) != Some(modules)
  {
    PackedFirst(modules);
    LoadOne(Packed(modules), |modules|);
    assert Uint32(Packed(modules)) < |modules[0]|;
  }

  /** The loader gets the modules back exactly if each is shorter than 2^32 bytes. */
  lemma {:induction false} LoadFromIff(modules: seq<Module>)
    ensures LoadFrom(Packed(modules), |modules|) == Some(modules)
            <==> forall k :: 0 <= k < |modules| ==> Fits(modules[k])
  {
    if modules != [] {
      if Fits(modules[0]) {
        LoadFitting(modules);
        LoadFromIff(modules[1..]);
      } else {
        LoadTruncated(modules);
      }
    }
  }

  /** What follows the kernel in an image, read back. */
  lemma ImageRoundTrip(kernel: seq<Byte>, modules: seq<Module>)
    requires |modules| < WORD
    ensures Load((kernel + Payload(modules))[|kernel|..]) == Some(modules)
            <==> forall k :: 0 <= k < |modules| ==> Fits(modules[k])
  {
    assert (kernel + Payload(modules))[|kernel|..] == Payload(modules);
    Uint32OfLe32(|modules|, Packed(modules));
    assert Payload(modules)[4..] == Packed(modules);
    LoadFromIff(modules);
  }

  /** Neither the payload nor another module lies where a module is loaded. */
  ghost predicate Roomy(memory: nat, start: nat, targets: seq<nat>, modules: seq<Module>) {
    && start + |Payload(modules)| <= memory && |targets| == |modules|
    && (forall k :: 0 <= k < |modules| ==> targets[k] + |modules[k]| <= memory)
    && (forall k :: 0 <= k < |modules| ==>
          targets[k] + |modules[k]| <= start || start + |Payload(modules)| <= targets[k])
    && (forall j, k :: 0 <= j < |modules| && 0 <= k < |modules| && j != k ==>
          targets[j] + |modules[j]| <= targets[k] || targets[k] + |modules[k]| <= targets[j])
  }

  /** The bytes `s` lie at address `a`. */
  predicate At(mem: seq<Byte>, a: nat, s: seq<Byte>) {
    a + |s| <= |mem| && mem[a..a + |s|] == s
  }

  lemma AtConcat(mem: seq<Byte>, a: nat, s: seq<Byte>, t: seq<Byte>)
    ensures At(mem, a, s + t) <==> At(mem, a, s) && At(mem, a + |s|, t)
  {
    if a + |s| + |t| <= |mem| {
      var u := mem[a..a + |s + t|];
      assert u == mem[a..a + |s|] + mem[a + |s|..a + |s| + |t|];
      assert u == s + t ==> u[..|s|] == s && u[|s|..] == t;
    }
  }

  lemma ReadBytes(b: seq<Byte>)
    requires |b| == 4
    ensures Uint32(b) == b[0] as nat + 256 * (b[1] as nat) + 65536 * (b[2] as nat) + 16777216 * (b[3] as nat)
  {
    assert b[..4] == b && b[1..][1..] == b[2..] && b[2..][1..] == b[3..] && b[3..][1..] == [];
    assert Value(b[3..]) == b[3] as nat;
    assert Value(b[2..]) == b[2] as nat + 256 * Value(b[3..]);
    assert Value(b[1..]) == b[1] as nat + 256 * Value(b[2..]);
  }

  /** readUint32 of the bytes `b` */
  method ReadUint32(mem: array<Byte>, address: nat, ghost b: seq<Byte>) returns (result: nat, next: nat)
    requires |b| == 4 && At(mem[..], address, b)
    ensures result == Uint32(b) && next == address + 4
  {
    ReadBytes(b);
    assert b == [mem[address], mem[address + 1], mem[address + 2], mem[address + 3]];
    result := mem[address] as nat + 256 * (mem[address + 1] as nat)
              + 65536 * (mem[address + 2] as nat) + 16777216 * (mem[address + 3] as nat);
    next := address + 4;
  }

  lemma Copied(was: seq<Byte>, now: seq<Byte>, target: nat, m: seq<Byte>)
    requires target + |m| <= |was| && now == was[..target] + m + was[target + |m|..]
    ensures At(now, target, m)
    ensures forall k {:trigger now[k]} :: 0 <= k < |now| && !(target <= k < target + |m|) ==> now[k] == was[k]
  {
  }

  /** loadModule: one module to its place; the cursor moves behind it. */
  method LoadModule(mem: array<Byte>, source: nat, target: nat, ghost m: Module) returns (next: nat)
    requires At(mem[..], source, Le32(|m|) + m) && Fits(m) && target + |m| <= mem.Length
    requires target + |m| <= source || source + 4 + |m| <= target
    modifies mem
    ensures next == source + 4 + |m| && At(mem[..], target, m)
    ensures forall k :: 0 <= k < mem.Length && !(target <= k < target + |m|) ==> mem[k] == old(mem[k])
  {
    AtConcat(mem[..], source, Le32(|m|), m);
    Uint32OfLe32(|m|, []);
    assert Le32(|m|) == Le32(|m|) + [];
    var moduleSize, from := ReadUint32(mem, source, Le32(|m|));
    Memcpy(mem, target, mem[from..from + moduleSize]);
    Copied(old(mem[..]), mem[..], target, m);
    next := from + moduleSize;
  }

  /** Where the cursor of loadModules stands before module `i`. */
  function Cursor(modules: seq<Module>, i: nat): nat
    requires i <= |modules|
  {
    if i == 0 then 4 else Cursor(modules, i - 1) + 4 + |modules[i - 1]|
  }

  lemma {:induction false} CursorAt(mem: seq<Byte>, start: nat, modules: seq<Module>, i: nat)
    requires i <= |modules| && At(mem, start, Payload(modules))
    ensures At(mem, start + Cursor(modules, i), Packed(modules[i..]))
    ensures Cursor(modules, i) + |Packed(modules[i..])| == |Payload(modules)|
  {
    if i == 0 {
      AtConcat(mem, start, Le32(|modules|), Packed(modules));
      assert modules[0..] == modules;
    } else {
      CursorAt(mem, start, modules, i - 1);
      CursorNext(mem, start + Cursor(modules, i - 1), modules, i - 1);
    }
  }

  /** Before each module the cursor stands on its size and bytes, which end in the payload. */
  lemma CursorOnModule(mem: seq<Byte>, start: nat, modules: seq<Module>, i: nat)
    requires i < |modules| && At(mem, start, Payload(modules))
    ensures At(mem, start + Cursor(modules, i), Le32(|modules[i]|) + modules[i])
    ensures Cursor(modules, i) + 4 + |modules[i]| <= |Payload(modules)|
  {
    CursorAt(mem, start, modules, i);
    CursorNext(mem, start + Cursor(modules, i), modules, i);
  }

  lemma CursorNext(mem: seq<Byte>, at: nat, modules: seq<Module>, i: nat)
    requires i < |modules| && At(mem, at, Packed(modules[i..]))
    ensures At(mem, at, Le32(|modules[i]|) + modules[i])
    ensures At(mem, at + 4 + |modules[i]|, Packed(modules[i + 1..]))
    ensures |Packed(modules[i..])| == 4 + |modules[i]| + |Packed(modules[i + 1..])|
  {
    var head := Le32(|modules[i]|) + modules[i];
    assert modules[i..][1..] == modules[i + 1..];
    assert Packed(modules[i..]) == head + Packed(modules[i + 1..]);
    AtConcat(mem, at, head, Packed(modules[i + 1..]));
  }

  lemma CountAt(mem: seq<Byte>, start: nat, modules: seq<Module>)
    requires |modules| < WORD && At(mem, start, Payload(modules))
    ensures At(mem, start, Le32(|modules|)) && Uint32(Le32(|modules|)) == |modules|
  {
    Uint32OfLe32(|modules|, []);
    assert Le32(|modules|) == Le32(|modules|) + [];
    AtConcat(mem, start, Le32(|modules|), Packed(modules));
  }

  /** Loading one module leaves the payload and the modules before it alone. */
  lemma LoadKeeps(was: seq<Byte>, mem: seq<Byte>, start: nat, targets: seq<nat>, modules: seq<Module>, i: nat)
    requires |mem| == |was| && Roomy(|mem|, start, targets, modules) && i < |modules|
    requires At(was, start, Payload(modules)) && forall k :: 0 <= k < i ==> At(was, targets[k], modules[k])
    requires At(mem, targets[i], modules[i])
    requires forall x :: 0 <= x < |mem| && !(targets[i] <= x < targets[i] + |modules[i]|) ==> mem[x] == was[x]
    ensures At(mem, start, Payload(modules)) && forall k :: 0 <= k < i + 1 ==> At(mem, targets[k], modules[k])
  {
  }

  /** Address `x` is in none of the areas of the first `n` modules. */
  ghost predicate Outside(targets: seq<nat>, modules: seq<Module>, x: int, n: nat)
    requires n <= |modules| == |targets|
  {
    forall k :: 0 <= k < n ==> !(targets[k] <= x < targets[k] + |modules[k]|)
  }

  /** Nothing outside those areas differs. */
  ghost predicate Untouched(was: seq<Byte>, mem: seq<Byte>, targets: seq<nat>, modules: seq<Module>, n: nat)
    requires n <= |modules| == |targets|
  {
    |mem| == |was| && forall x :: 0 <= x < |mem| && Outside(targets, modules, x, n) ==> mem[x] == was[x]
  }

  /** loadModules: every module of a packed image ends up at its address. */
  method LoadModules(mem: array<Byte>, payloadStart: nat, targets: seq<nat>, ghost modules: seq<Module>)
    requires |modules| < WORD && Roomy(mem.Length, payloadStart, targets, modules)
    requires forall k :: 0 <= k < |modules| ==> Fits(modules[k])
    requires At(mem[..], payloadStart, Payload(modules))
    modifies mem
    ensures forall k :: 0 <= k < |modules| ==> At(mem[..], targets[k], modules[k])
    ensures At(mem[..], payloadStart, Payload(modules))
    ensures Untouched(old(mem[..]), mem[..], targets, modules, |modules|)
  {
    CountAt(mem[..], payloadStart, modules);
    var moduleCount, current := ReadUint32(mem, payloadStart, Le32(|modules|));
    var i := 0;
    while i < moduleCount
      invariant 0 <= i <= |modules| == moduleCount && current == payloadStart + Cursor(modules, i)
      invariant At(mem[..], payloadStart, Payload(modules))
      invariant forall k :: 0 <= k < i ==> At(mem[..], targets[k], modules[k])
      invariant Untouched(old(mem[..]), mem[..], targets, modules, i)
    {
      current := LoadNext(mem, payloadStart, targets, modules, i, current, old(mem[..]));
      i := i + 1;
    }
  }

  /** One turn of the loop of loadModules. */
  method LoadNext(mem: array<Byte>, ghost payloadStart: nat, targets: seq<nat>, ghost modules: seq<Module>,
                  i: nat, current: nat, ghost orig: seq<Byte>)
    returns (next: nat)
    requires Roomy(mem.Length, payloadStart, targets, modules) && i < |modules| && Fits(modules[i])
    requires current == payloadStart + Cursor(modules, i) && At(mem[..], payloadStart, Payload(modules))
    requires forall k :: 0 <= k < i ==> At(mem[..], targets[k], modules[k])
    requires Untouched(orig, mem[..], targets, modules, i)
    modifies mem
    ensures next == payloadStart + Cursor(modules, i + 1) && At(mem[..], payloadStart, Payload(modules))
    ensures forall k :: 0 <= k < i + 1 ==> At(mem[..], targets[k], modules[k])
    ensures Untouched(orig, mem[..], targets, modules, i + 1)
  {
    CursorOnModule(mem[..], payloadStart, modules, i);
    ghost var was := mem[..];
    next := LoadModule(mem, current, targets[i], modules[i]);
    LoadKeeps(was, mem[..], payloadStart, targets, modules, i);
  }
}
