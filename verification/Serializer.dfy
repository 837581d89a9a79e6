/** Whole .tbc files: written from verified modules only, and read back as they were. */
module Serializer {
  import opened Bytecode
  import opened Verifier
  import opened Wire
  import opened Tbc

  // A module with everything a file holds.
  datatype Image = Image(
    name: string, major: U32, minor: U32, patch: U32, entry: U32,
    constants: seq<Constant>, functions: seq<Function>, lines: seq<DebugLine>,
    libraries: seq<string>, structs: seq<StructLayout>, signatures: seq<Signature>, bindings: seq<FfiBinding>,
    classes: seq<ClassDecl>)

  // What the verifier and the runtime see of it.
  function ModuleOf(m: Image): Module {
    Module(m.functions, m.constants, m.entry, m.bindings, |m.signatures|, |m.libraries|, m.classes)
  }

  const MAGIC: seq<Byte> := [0x54, 0x42, 0x43, 0x30]
  const FORMAT_MAJOR: nat := 0
  const FORMAT_MINOR: nat := 6

  predicate HasFfi(m: Image) {
    m.libraries != [] || m.structs != [] || m.signatures != [] || m.bindings != []
    || exists k :: 0 <= k < |m.functions| && m.functions[k].ffi.enabled
  }

  function Flags(m: Image, debug: bool): nat {
    Bit(debug) + 2 * Bit(HasFfi(m)) + 4 * Bit(m.classes != [])
  }

  // ---- The layout ----------------------------------------------------------------------------------------

  datatype Header = Header(flags: U32, name: string, counts: Counts)

  datatype Counts = Counts(major: U32, minor: U32, patch: U32, entry: U32, constants: U32, functions: U32)

  function WriteCounts(c: Counts): (w: seq<Byte>)
    ensures |w| == 24
  {
    Write32(c.major) + (Write32(c.minor) + (Write32(c.patch) +
      (Write32(c.entry) + (Write32(c.constants) + Write32(c.functions)))))
  }

  function ReadCounts(bytes: seq<Byte>, off: nat): Parsed<Counts> {
    var (major, o1) :- Read32(bytes, off);
    var (minor, o2) :- Read32(bytes, o1);
    var (patch, o3) :- Read32(bytes, o2);
    var (entry, o4) :- Read32(bytes, o3);
    var (constants, o5) :- Read32(bytes, o4);
    var (functions, o6) :- Read32(bytes, o5);
    Got(Counts(major, minor, patch, entry, constants, functions), o6)
  }

  function WriteHeader(h: Header): seq<Byte> {
    MAGIC + (Write16(FORMAT_MAJOR) + (Write16(FORMAT_MINOR) + (Write32(h.flags) + (WriteString(h.name) +
      WriteCounts(h.counts)))))
  }

  function ReadHeader(bytes: seq<Byte>, off: nat): Parsed<Header> {
    if off + 4 > |bytes| || bytes[off..off + 4] != MAGIC then Bad
    else
      var (fmajor, o1) :- Read16(bytes, off + 4);
      var (fminor, o2) :- Read16(bytes, o1);
      if fmajor != FORMAT_MAJOR || fminor != FORMAT_MINOR then Bad
      else
        var (flags, o3) :- Read32(bytes, o2);
        var (name, o4) :- ReadString(bytes, o3);
        var (counts, o5) :- ReadCounts(bytes, o4);
        Got(Header(flags, name, counts), o5)
  }

  datatype Ffi = Ffi(
    libraries: seq<string>, structs: seq<StructLayout>, signatures: seq<Signature>, bindings: seq<FfiBinding>)

  function WriteFfi(f: Ffi): seq<Byte> {
    WriteList(WriteString, f.libraries) + (WriteList(WriteStruct, f.structs) +
      (WriteList(WriteSignature, f.signatures) + WriteList(WriteBinding, f.bindings)))
  }

  function ReadFfi(bytes: seq<Byte>, off: nat): Parsed<Ffi> {
    var (libraries, o1) :- ReadList(ReadString, bytes, off);
    var (structs, o2) :- ReadList(ReadStruct, bytes, o1);
    var (signatures, o3) :- ReadList(ReadSignature, bytes, o2);
    var (bindings, o4) :- ReadList(ReadBinding, bytes, o3);
    Got(Ffi(libraries, structs, signatures, bindings), o4)
  }

  // A section that is there or not.
  function Section(present: bool, w: seq<Byte>): seq<Byte> { if present then w else [] }

  function HeaderOf(m: Image, debug: bool): Header {
    Header(Flags(m, debug), m.name,
           Counts(m.major, m.minor, m.patch, m.entry, |m.constants| % 0x1_0000_0000, |m.functions| % 0x1_0000_0000))
  }

  function FfiOf(m: Image): Ffi { Ffi(m.libraries, m.structs, m.signatures, m.bindings) }

  datatype Sections = Sections(lines: seq<DebugLine>, ffi: Ffi, classes: seq<ClassDecl>)

  function WriteSections(m: Image, debug: bool): seq<Byte> {
    Section(debug, WriteList(WriteLine, m.lines)) + (Section(HasFfi(m), WriteFfi(FfiOf(m))) +
      Section(m.classes != [], WriteList(WriteClass, m.classes)))
  }

  function WriteImage(m: Image, debug: bool): seq<Byte> {
    WriteHeader(HeaderOf(m, debug)) + (WriteMany(WriteConstant, m.constants) + (WriteMany(WriteFunction, m.functions) +
      WriteSections(m, debug)))
  }

  predicate HasBit(flags: nat, bit: nat)
    requires bit > 0
  {
    flags / bit % 2 == 1
  }

  function ReadSections(bytes: seq<Byte>, off: nat, flags: nat): Parsed<Sections> {
    var (lines, o1) :- if HasBit(flags, 1) then ReadList(ReadLine, bytes, off) else Got([], off);
    var (ffi, o2) :- if HasBit(flags, 2) then ReadFfi(bytes, o1) else Got(Ffi([], [], [], []), o1);
    var (classes, o3) :- if HasBit(flags, 4) then ReadList(ReadClass, bytes, o2) else Got([], o2);
    Got(Sections(lines, ffi, classes), o3)
  }

  function ImageOf(h: Header, constants: seq<Constant>, functions: seq<Function>, s: Sections): Image {
    Image(h.name, h.counts.major, h.counts.minor, h.counts.patch, h.counts.entry, constants, functions, s.lines,
          s.ffi.libraries, s.ffi.structs, s.ffi.signatures, s.ffi.bindings, s.classes)
  }

  function ReadImage(bytes: seq<Byte>, off: nat): Parsed<Image> {
    var (h, o1) :- ReadHeader(bytes, off);
    var (constants, o2) :- ReadMany(ReadConstant, bytes, o1, h.counts.constants);
    var (functions, o3) :- ReadMany(ReadFunction, bytes, o2, h.counts.functions);
    var (s, o4) :- ReadSections(bytes, o3, h.flags);
    Got(ImageOf(h, constants, functions, s), o4)
  }

  // ---- Round trip ------------------------------------------------------------------------------------------

  predicate FfiFits(f: Ffi) {
    && |f.libraries| < 0x1_0000_0000 && |f.structs| < 0x1_0000_0000
    && |f.signatures| < 0x1_0000_0000 && |f.bindings| < 0x1_0000_0000
    && (forall k :: 0 <= k < |f.libraries| ==> Narrow(f.libraries[k]))
    && (forall k :: 0 <= k < |f.structs| ==> StructFits(f.structs[k]))
    && (forall k :: 0 <= k < |f.signatures| ==> SignatureFits(f.signatures[k]))
    && (forall k :: 0 <= k < |f.bindings| ==> BindingFits(f.bindings[k]))
  }

  // Every size and number fits its field.
  predicate ImageFits(m: Image) {
    && Narrow(m.name) && |m.constants| < 0x1_0000_0000 && |m.functions| < 0x1_0000_0000
    && |m.lines| < 0x1_0000_0000 && |m.classes| < 0x1_0000_0000 && FfiFits(FfiOf(m))
    && (forall k :: 0 <= k < |m.constants| ==> ConstantFits(m.constants[k]))
    && (forall k :: 0 <= k < |m.functions| ==> FunctionFits(m.functions[k]))
    && (forall k :: 0 <= k < |m.classes| ==> ClassFits(m.classes[k]))
  }

  // What comes back: blocks run together, and debug lines only if they were wanted.
  function Restored(m: Image, debug: bool): Image {
    m.(functions := Normal(Flattened, m.functions), lines := if debug then m.lines else [])
  }

  lemma CountsRead(bytes: seq<Byte>, off: nat, c: Counts)
    requires At(bytes, off, WriteCounts(c))
    ensures ReadCounts(bytes, off) == Got(c, off + 24)
  {
    hide At, Write32, Read32;
    var w1, w2, w3 := Write32(c.major), Write32(c.minor), Write32(c.patch);
    var w4, w5, w6 := Write32(c.entry), Write32(c.constants), Write32(c.functions);
    SplitAt(bytes, off, w1, w2 + (w3 + (w4 + (w5 + w6))));
    SplitAt(bytes, off + 4, w2, w3 + (w4 + (w5 + w6)));
    SplitAt(bytes, off + 8, w3, w4 + (w5 + w6));
    SplitAt(bytes, off + 12, w4, w5 + w6);
    SplitAt(bytes, off + 16, w5, w6);
    Field32(bytes, off, c.major);
    Field32(bytes, off + 4, c.minor);
    Field32(bytes, off + 8, c.patch);
    Field32(bytes, off + 12, c.entry);
    Field32(bytes, off + 16, c.constants);
    Field32(bytes, off + 20, c.functions);
  }

  lemma HeaderRead(bytes: seq<Byte>, off: nat, h: Header)
    requires Narrow(h.name) && At(bytes, off, WriteHeader(h))
    ensures ReadHeader(bytes, off) == Got(h, off + |WriteHeader(h)|)
  {
    hide Write16, Write32, WriteString, Read16, Read32, ReadString, Narrow, WriteCounts, ReadCounts;
    var w1, w2, w3, w4, w5 := Write16(FORMAT_MAJOR), Write16(FORMAT_MINOR), Write32(h.flags), WriteString(h.name),
                              WriteCounts(h.counts);
    SplitAt(bytes, off, MAGIC, w1 + (w2 + (w3 + (w4 + w5))));
    hide At;
    SplitAt(bytes, off + 4, w1, w2 + (w3 + (w4 + w5)));
    SplitAt(bytes, off + 6, w2, w3 + (w4 + w5));
    SplitAt(bytes, off + 8, w3, w4 + w5);
    SplitAt(bytes, off + 12, w4, w5);
    Field16(bytes, off + 4, FORMAT_MAJOR);
    Field16(bytes, off + 6, FORMAT_MINOR);
    Field32(bytes, off + 8, h.flags);
    StringRead(bytes, off + 12, h.name);
    CountsRead(bytes, off + 12 + |w4|, h.counts);
  }

  lemma FfiRead(bytes: seq<Byte>, off: nat, f: Ffi)
    requires FfiFits(f) && At(bytes, off, WriteFfi(f))
    ensures ReadFfi(bytes, off) == Got(f, off + |WriteFfi(f)|)
  {
    hide At, WriteList, ReadList, WriteString, ReadString, WriteStruct, ReadStruct, WriteSignature, ReadSignature,
         WriteBinding, ReadBinding, Narrow, StructFits, SignatureFits, BindingFits, TakesBack;
    var w1, w2 := WriteList(WriteString, f.libraries), WriteList(WriteStruct, f.structs);
    var w3, w4 := WriteList(WriteSignature, f.signatures), WriteList(WriteBinding, f.bindings);
    var o1 := off + |w1|;
    var o2 := o1 + |w2|;
    SplitAt(bytes, off, w1, w2 + (w3 + w4));
    SplitAt(bytes, o1, w2, w3 + w4);
    SplitAt(bytes, o2, w3, w4);
    StringsBack(bytes);
    ListRead(WriteString, ReadString, Same, Narrow, bytes, off, f.libraries);
    StructsBack(bytes);
    ListRead(WriteStruct, ReadStruct, Same, StructFits, bytes, o1, f.structs);
    SignaturesBack(bytes);
    ListRead(WriteSignature, ReadSignature, Same, SignatureFits, bytes, o2, f.signatures);
    BindingsBack(bytes);
    ListRead(WriteBinding, ReadBinding, Same, BindingFits, bytes, o2 + |w3|, f.bindings);
    SameNormal(f.libraries);
    SameNormal(f.structs);
    SameNormal(f.signatures);
    SameNormal(f.bindings);
  }

  lemma FlagBits(m: Image, debug: bool)
    ensures HasBit(Flags(m, debug), 1) == debug
    ensures HasBit(Flags(m, debug), 2) == HasFfi(m)
    ensures HasBit(Flags(m, debug), 4) == (m.classes != [])
  {
    hide HasFfi;
  }

  // The optional sections.
  lemma SectionsRead(bytes: seq<Byte>, off: nat, m: Image, debug: bool)
    requires ImageFits(m)
    requires At(bytes, off, WriteSections(m, debug))
    ensures ReadSections(bytes, off, Flags(m, debug))
         == Got(Sections(if debug then m.lines else [], FfiOf(m), m.classes), off + |WriteSections(m, debug)|)
  {
    hide At, WriteList, ReadList, WriteFfi, ReadFfi, Flags, HasBit, HasFfi, WriteLine, ReadLine, WriteClass, ReadClass,
         Narrow, ConstantFits, FunctionFits, ClassFits, FfiFits, TakesBack, Normal;
    var w4, w5 := Section(debug, WriteList(WriteLine, m.lines)), Section(HasFfi(m), WriteFfi(FfiOf(m)));
    var w6 := Section(m.classes != [], WriteList(WriteClass, m.classes));
    var o4 := off + |w4|;
    SplitAt(bytes, off, w4, w5 + w6);
    SplitAt(bytes, o4, w5, w6);
    FlagBits(m, debug);
    LinesBack(bytes);
    if debug { ListRead(WriteLine, ReadLine, Same, Anything, bytes, off, m.lines); }
    SameNormal(m.lines);
    if HasFfi(m) { FfiRead(bytes, o4, FfiOf(m)); } else { NoFfi(m); }
    ClassesBack(bytes);
    if m.classes != [] { ListRead(WriteClass, ReadClass, Same, ClassFits, bytes, o4 + |w5|, m.classes); }
    SameNormal(m.classes);
  }

  // Reading takes back what writing wrote, wherever it stands.
  lemma ImageRead(bytes: seq<Byte>, off: nat, m: Image, debug: bool)
    requires ImageFits(m) && At(bytes, off, WriteImage(m, debug))
    ensures ReadImage(bytes, off) == Got(Restored(m, debug), off + |WriteImage(m, debug)|)
  {
    hide At, WriteHeader, ReadHeader, WriteMany, ReadMany, WriteSections, ReadSections, Flags,
         WriteConstant, ReadConstant, WriteFunction, ReadFunction, Narrow, ConstantFits, FunctionFits, ClassFits,
         FfiFits,
         TakesBack, Normal;
    var w1, w2, w3, w4 := WriteHeader(HeaderOf(m, debug)), WriteMany(WriteConstant, m.constants),
                          WriteMany(WriteFunction, m.functions), WriteSections(m, debug);
    var o1 := off + |w1|;
    var o2 := o1 + |w2|;
    var o3 := o2 + |w3|;
    SplitAt(bytes, off, w1, w2 + (w3 + w4));
    SplitAt(bytes, o1, w2, w3 + w4);
    SplitAt(bytes, o2, w3, w4);
    HeaderRead(bytes, off, HeaderOf(m, debug));
    ConstantsBack(bytes);
    ManyRead(WriteConstant, ReadConstant, Same, ConstantFits, bytes, o1, m.constants);
    SameNormal(m.constants);
    FunctionsBack(bytes);
    ManyRead(WriteFunction, ReadFunction, Flattened, FunctionFits, bytes, o2, m.functions);
    SectionsRead(bytes, o3, m, debug);
  }

  lemma NoFfi(m: Image)
    requires !HasFfi(m)
    ensures FfiOf(m) == Ffi([], [], [], [])
  {
  }

  // ---- Verified on both sides ---------------------------------------------------------------------------

  lemma FlattenedCode(f: Function)
    ensures Flattened(f).Code() == f.Code()
  {
    assert Flatten([BasicBlock("entry", f.Code())]) == f.Code() + Flatten([]);
  }

  // The verifier looks at flattened code only.
  lemma RestoredAccepted(m: Image, debug: bool)
    requires Accepted(ModuleOf(m))
    ensures Accepted(ModuleOf(Restored(m, debug)))
  {
    var a, b := ModuleOf(m), ModuleOf(Restored(m, debug));
    forall k | 0 <= k < |a.functions|
      ensures b.functions[k] == a.functions[k].(blocks := b.functions[k].blocks)
      ensures b.functions[k].Code() == a.functions[k].Code()
    {
      FlattenedCode(a.functions[k]);
    }
    forall k | 0 <= k < |b.functions| ensures FunctionOk(b, b.functions[k]) {
      assert FunctionOk(a, a.functions[k]);
      var code := a.functions[k].Code();
      forall pc | 0 <= pc < |code| ensures InstructionOk(b, b.functions[k], code[pc], pc, |code|) {
        assert InstructionOk(a, a.functions[k], code[pc], pc, |code|);
        SameInstructionOk(a, b, a.functions[k], b.functions[k], code[pc], pc, |code|);
      }
    }
    forall k | 0 <= k < |b.classes| ensures ClassOk(b, b.classes[k]) {
      assert ClassOk(a, a.classes[k]);
      var c := a.classes[k];
      forall j | 0 <= j < |c.bases| ensures IsClass(b, c.bases[j]) { assert IsClass(a, c.bases[j]); }
      forall j | 0 <= j < |c.methods| ensures MethodOk(b, c.methods[j]) { assert MethodOk(a, c.methods[j]); }
    }
    forall k | 0 <= k < |b.ffiBindings| ensures BindingOk(b, b.ffiBindings[k]) {
      assert BindingOk(a, a.ffiBindings[k]);
    }
  }

  lemma SameInstructionOk(
      a: Module, b: Module, f: Function, g: Function, i: Instruction, pc: int, size: nat)
    requires InstructionOk(a, f, i, pc, size) && g == f.(blocks := g.blocks)
    requires b == a.(functions := b.functions) && |b.functions| == |a.functions|
    requires forall k :: 0 <= k < |a.functions| ==> b.functions[k] == a.functions[k].(blocks := b.functions[k].blocks)
    ensures InstructionOk(b, g, i, pc, size)
  {
    hide RegistersFit, TargetsFit;
  }

  datatype Outcome<+T> = Done(value: T) | NotVerified(status: Status) | Malformed

  // The bytes of a verified module, and nothing for any other.
  method Serialize(m: Image, debug: bool) returns (r: Outcome<seq<Byte>>)
    ensures Accepted(ModuleOf(m)) ==> r == Done(WriteImage(m, debug))
    ensures !Accepted(ModuleOf(m)) ==> r.NotVerified?
  {
    hide Accepted, WriteMany, WriteList, WriteFfi, WriteSections, WriteHeader, WriteCounts, HasFfi;
    var status, _ := Verify(ModuleOf(m));
    if !status.Ok? { return NotVerified(status); }
    var out := new Buffer();
    PutHeader(out, HeaderOf(m, debug));
    out.PutMany(WriteConstant, m.constants);
    out.PutMany(WriteFunction, m.functions);
    PutSections(out, m, debug);
    ghost var w1, w2, w3, w4 := WriteHeader(HeaderOf(m, debug)), WriteMany(WriteConstant, m.constants),
                                WriteMany(WriteFunction, m.functions), WriteSections(m, debug);
    assert [] + w1 == w1 && ((w1 + w2) + w3) + w4 == w1 + (w2 + (w3 + w4));
    r := Done(out.out);
  }

  method PutHeader(out: Buffer, h: Header)
    modifies out
    ensures out.out == old(out.out) + WriteHeader(h)
  {
    hide Write16, Write32, WriteString;
    out.out := out.out + MAGIC;
    out.PutU16(FORMAT_MAJOR);
    out.PutU16(FORMAT_MINOR);
    out.PutU32(h.flags);
    out.PutString(h.name);
    out.PutU32(h.counts.major);
    out.PutU32(h.counts.minor);
    out.PutU32(h.counts.patch);
    out.PutU32(h.counts.entry);
    out.PutU32(h.counts.constants);
    out.PutU32(h.counts.functions);
  }

  method PutList<T>(out: Buffer, w: T -> seq<Byte>, xs: seq<T>)
    modifies out
    ensures out.out == old(out.out) + WriteList(w, xs)
  {
    out.PutU32(|xs|);
    out.PutMany(w, xs);
  }

  method PutSections(out: Buffer, m: Image, debug: bool)
    modifies out
    ensures out.out == old(out.out) + WriteSections(m, debug)
  {
    hide WriteList;
    if debug { PutList(out, WriteLine, m.lines); }
    ghost var o1 := out.out;
    if HasFfi(m) {
      PutList(out, WriteString, m.libraries);
      PutList(out, WriteStruct, m.structs);
      PutList(out, WriteSignature, m.signatures);
      PutList(out, WriteBinding, m.bindings);
    }
    assert out.out == o1 + Section(HasFfi(m), WriteFfi(FfiOf(m)));
    if m.classes != [] { PutList(out, WriteClass, m.classes); }
  }

  // A file is taken if it is well formed to its last byte and, if wanted, verified.
  method Deserialize(bytes: seq<Byte>, verify: bool) returns (r: Outcome<Image>)
    ensures match ReadImage(bytes, 0)
            case Bad => r == Malformed
            case Got(m, next) =>
              if next != |bytes| then r == Malformed
              else if verify && !Accepted(ModuleOf(m)) then r.NotVerified?
              else r == Done(m)
  {
    hide Accepted, ReadMany, ReadHeader, ReadSections;
    var h := ReadHeader(bytes, 0);
    if h.Bad? { return Malformed; }
    var constants := GetMany(ReadConstant, bytes, h.next, h.item.counts.constants);
    if constants.Bad? { return Malformed; }
    var functions := GetMany(ReadFunction, bytes, constants.next, h.item.counts.functions);
    if functions.Bad? { return Malformed; }
    var sections := ReadSections(bytes, functions.next, h.item.flags);
    if sections.Bad? || sections.next != |bytes| { return Malformed; }
    var m := ImageOf(h.item, constants.item, functions.item, sections.item);
    if verify {
      var status, _ := Verify(ModuleOf(m));
      if !status.Ok? { return NotVerified(status); }
    }
    r := Done(m);
  }

  // The main result: what was written from a verified module is read back, verified again,
  // with its blocks run together and its debug lines if they were asked for.
  lemma RoundTrip(m: Image, debug: bool)
    requires Accepted(ModuleOf(m)) && ImageFits(m)
    ensures ReadImage(WriteImage(m, debug), 0) == Got(Restored(m, debug), |WriteImage(m, debug)|)
    ensures Accepted(ModuleOf(Restored(m, debug)))
  {
    hide WriteImage, ReadImage, Accepted, Restored, ImageFits, ModuleOf;
    var bytes := WriteImage(m, debug);
    assert bytes[0..0 + |bytes|] == bytes;
    ImageRead(bytes, 0, m, debug);
    RestoredAccepted(m, debug);
  }
}
