/**
 * The stealth variant of the nmap scanner: six optional evasion settings
 * become one nmap argument string, which the scanner keeps and passes to
 * every scan.
 */
module StealthScanner {
  import opened Wrappers
  import opened Text
  import opened Decimal

  /** The scan mode nmap is given when no stealth setting is active (a SYN scan). */
  const DefaultScanArguments: string := "-sS"

  /** The keyword arguments of the stealth scanner's constructor. */
  datatype StealthOptions = StealthOptions(
    decoy: Option<string>,
    fragmentation: bool,
    idleScanZombie: Option<string>,
    timing: Option<int>,
    sourcePort: Option<int>,
    ttl: Option<int>)

  /** Python truthiness of an optional string: present and non-empty. */
  predicate TruthyString(v: Option<string>) {
    v.Some? && |v.value| > 0
  }

  /** Python truthiness of an optional integer: present and non-zero. */
  predicate TruthyInt(v: Option<int>) {
    v.Some? && v.value != 0
  }

  /** One nmap option contributed by one setting. */
  datatype Fragment =
    | Decoy(decoys: string)
    | Fragmentation
    | IdleScan(zombie: string)
    | Timing(template: int)
    | SourcePort(port: int)
    | Ttl(hops: int)

  /** Position of each kind of fragment in the argument string. */
  function Rank(f: Fragment): nat {
    match f
    case Decoy(_) => 0
    case Fragmentation => 1
    case IdleScan(_) => 2
    case Timing(_) => 3
    case SourcePort(_) => 4
    case Ttl(_) => 5
  }

  /** The nmap flag that opens a fragment. */
  function Flag(f: Fragment): string {
    match f
    case Decoy(_) => "-D"
    case Fragmentation => "-f"
    case IdleScan(_) => "-sI"
    case Timing(_) => "-T"
    case SourcePort(_) => "--source-port"
    case Ttl(_) => "--ttl"
  }

  /** The text a fragment adds after its separating space. */
  function Render(f: Fragment): string {
    match f
    case Decoy(d) => "-D " + d
    case Fragmentation => "-f"
    case IdleScan(z) => "-sI " + z
    case Timing(t) => "-T" + IntToDecimal(t)
    case SourcePort(p) => "--source-port " + IntToDecimal(p)
    case Ttl(t) => "--ttl " + IntToDecimal(t)
  }

  /** The space-separated words of a rendered fragment: the timing level is
      glued to its flag, every other value is a word of its own. */
  function Words(f: Fragment): seq<string> {
    match f
    case Decoy(d) => ["-D", d]
    case Fragmentation => ["-f"]
    case IdleScan(z) => ["-sI", z]
    case Timing(t) => ["-T" + IntToDecimal(t)]
    case SourcePort(p) => ["--source-port", IntToDecimal(p)]
    case Ttl(t) => ["--ttl", IntToDecimal(t)]
  }

  /** The fragment a setting adds: none when the setting is falsy. */
  function Opt(on: bool, f: Fragment): (r: seq<Fragment>)
    ensures forall g :: g in r <==> on && g == f
    ensures |r| <= 1
  {
    if on then [f] else []
  }

  /** The fragments the settings switch on, in the order they are appended. */
  function Fragments(o: StealthOptions): seq<Fragment> {
    Opt(TruthyString(o.decoy), Decoy(o.decoy.GetOr("")))
    + Opt(o.fragmentation, Fragmentation)
    + Opt(TruthyString(o.idleScanZombie), IdleScan(o.idleScanZombie.GetOr("")))
    + Opt(TruthyInt(o.timing), Timing(o.timing.GetOr(0)))
    + Opt(TruthyInt(o.sourcePort), SourcePort(o.sourcePort.GetOr(0)))
    + Opt(TruthyInt(o.ttl), Ttl(o.ttl.GetOr(0)))
  }

  /** The text the constructor appends for a fragment: a space, then the
      fragment. */
  function Appended(f: Fragment): string {
    " " + Render(f)
  }

  /** The option text before stripping: every fragment's appended text. */
  function Untrimmed(fs: seq<Fragment>): string {
    if fs == [] then "" else Appended(fs[0]) + Untrimmed(fs[1..])
  }

  function RenderAll(fs: seq<Fragment>): (r: seq<string>)
    ensures |r| == |fs|
  {
    if fs == [] then [] else [Render(fs[0])] + RenderAll(fs[1..])
  }

  function AllWords(fs: seq<Fragment>): seq<string> {
    if fs == [] then [] else Words(fs[0]) + AllWords(fs[1..])
  }

  /** The option text after stripping, with the SYN scan as fallback. It is
      never empty. */
  function Arguments(fs: seq<Fragment>): (r: string)
    ensures r != []
  {
    var s := Strip(Untrimmed(fs));
    if s == [] then DefaultScanArguments else s
  }

  /** The argument string the stealth scanner hands to nmap. */
  function StealthArguments(o: StealthOptions): string {
    Arguments(Fragments(o))
  }

  /** The string building of the stealth constructor: one conditional append
      per setting, then strip, then the fallback. */
  method ComposeStealthOptions(o: StealthOptions) returns (args: string)
    ensures args == StealthArguments(o)
  {
    SpacedFlags();
    var opts := "";
    if TruthyString(o.decoy) {
      opts := opts + " -D " + o.decoy.value;
    }
    ghost var p0 := Piece(TruthyString(o.decoy), Decoy(o.decoy.GetOr("")));
    assert opts == p0 by {
      AppendPiece("", TruthyString(o.decoy), " -D ", "-D ", o.decoy.GetOr(""), Decoy(o.decoy.GetOr("")));
    }
    if o.fragmentation {
      opts := opts + " -f";
    }
    ghost var p1 := Piece(o.fragmentation, Fragmentation);
    assert opts == p0 + p1 by {
      AppendPiece(p0, o.fragmentation, " -f", "-f", "", Fragmentation);
    }
    if TruthyString(o.idleScanZombie) {
      opts := opts + " -sI " + o.idleScanZombie.value;
    }
    ghost var p2 := Piece(TruthyString(o.idleScanZombie), IdleScan(o.idleScanZombie.GetOr("")));
    assert opts == p0 + p1 + p2 by {
      AppendPiece(p0 + p1, TruthyString(o.idleScanZombie), " -sI ", "-sI ", o.idleScanZombie.GetOr(""),
                  IdleScan(o.idleScanZombie.GetOr("")));
    }
    if TruthyInt(o.timing) {
      opts := opts + " -T" + IntToDecimal(o.timing.value);
    }
    ghost var p3 := Piece(TruthyInt(o.timing), Timing(o.timing.GetOr(0)));
    assert opts == p0 + p1 + p2 + p3 by {
      AppendPiece(p0 + p1 + p2, TruthyInt(o.timing), " -T", "-T", IntToDecimal(o.timing.GetOr(0)),
                  Timing(o.timing.GetOr(0)));
    }
    if TruthyInt(o.sourcePort) {
      opts := opts + " --source-port " + IntToDecimal(o.sourcePort.value);
    }
    ghost var p4 := Piece(TruthyInt(o.sourcePort), SourcePort(o.sourcePort.GetOr(0)));
    assert opts == p0 + p1 + p2 + p3 + p4 by {
      AppendPiece(p0 + p1 + p2 + p3, TruthyInt(o.sourcePort), " --source-port ", "--source-port ",
                  IntToDecimal(o.sourcePort.GetOr(0)), SourcePort(o.sourcePort.GetOr(0)));
    }
    if TruthyInt(o.ttl) {
      opts := opts + " --ttl " + IntToDecimal(o.ttl.value);
    }
    ghost var p5 := Piece(TruthyInt(o.ttl), Ttl(o.ttl.GetOr(0)));
    assert opts == p0 + p1 + p2 + p3 + p4 + p5 by {
      AppendPiece(p0 + p1 + p2 + p3 + p4, TruthyInt(o.ttl), " --ttl ", "--ttl ", IntToDecimal(o.ttl.GetOr(0)),
                  Ttl(o.ttl.GetOr(0)));
    }
    UntrimmedOfFragments(o);
    opts := Strip(opts);
    if opts == "" {
      opts := DefaultScanArguments;
    }
    args := opts;
  }

  /** The scanner object; of its state the model keeps the argument string
      that every scan passes to nmap. */
  class NmapScanner {
    var scanArguments: string

    /** The base scanner: the caller's argument string, by default a SYN scan. */
    constructor (scanArguments: string := DefaultScanArguments)
      ensures this.scanArguments == scanArguments
    {
      this.scanArguments := scanArguments;
    }

    /** The stealth scanner: the base scanner built with the argument string
        composed from the stealth settings. */
    constructor Stealth(decoy: Option<string> := None, fragmentation: bool := false,
                        idleScanZombie: Option<string> := None, timing: Option<int> := None,
                        sourcePort: Option<int> := None, ttl: Option<int> := None)
      ensures scanArguments
              == StealthArguments(StealthOptions(decoy, fragmentation, idleScanZombie, timing, sourcePort, ttl))
    {
      var opts := ComposeStealthOptions(StealthOptions(decoy, fragmentation, idleScanZombie, timing, sourcePort, ttl));
      scanArguments := opts;
    }
  }

  // ---------------------------------------------------------------------
  // Reading an argument string back into fragments

  function Prepend(f: Fragment, rest: Option<seq<Fragment>>): Option<seq<Fragment>> {
    match rest
    case None => None
    case Some(fs) => Some([f] + fs)
  }

  /** Reads nmap words back into fragments; a flag that takes a value takes
      the next word, whatever it is. */
  function ParseWords(ws: seq<string>): Option<seq<Fragment>>
    decreases |ws|
  {
    if ws == [] then Some([])
    else
      var w := ws[0];
      if w == "-f" then Prepend(Fragmentation, ParseWords(ws[1..]))
      else if w == "-D" && |ws| >= 2 then Prepend(Decoy(ws[1]), ParseWords(ws[2..]))
      else if w == "-sI" && |ws| >= 2 then Prepend(IdleScan(ws[1]), ParseWords(ws[2..]))
      else if w == "--source-port" && |ws| >= 2 && ParseInt(ws[1]).Some? then
        Prepend(SourcePort(ParseInt(ws[1]).value), ParseWords(ws[2..]))
      else if w == "--ttl" && |ws| >= 2 && ParseInt(ws[1]).Some? then
        Prepend(Ttl(ParseInt(ws[1]).value), ParseWords(ws[2..]))
      else if |w| >= 2 && w[..2] == "-T" && ParseInt(w[2..]).Some? then
        Prepend(Timing(ParseInt(w[2..]).value), ParseWords(ws[1..]))
      else None
  }

  /** Reads an argument string produced by the stealth scanner back into the
      fragments it is made of; the plain SYN scan reads as none. */
  function ParseArguments(s: string): Option<seq<Fragment>> {
    if s == DefaultScanArguments then Some([]) else ParseWords(Split(s, ' '))
  }

  // ---------------------------------------------------------------------
  // Properties

  /** A fragment whose values are words: non-empty and free of whitespace. */
  predicate WordValued(f: Fragment) {
    match f
    case Decoy(d) => d != [] && NoWhitespace(d)
    case IdleScan(z) => z != [] && NoWhitespace(z)
    case _ => true
  }

  /** The string settings hold no whitespace (the integers never do). */
  predicate NoWhitespaceValues(o: StealthOptions) {
    && (o.decoy.Some? ==> NoWhitespace(o.decoy.value))
    && (o.idleScanZombie.Some? ==> NoWhitespace(o.idleScanZombie.value))
  }

  /** The literal texts the constructor appends are a space and a flag. */
  lemma SpacedFlags()
    ensures " -D " == " " + "-D " && " -f" == " " + "-f" && " -sI " == " " + "-sI "
    ensures " -T" == " " + "-T" && " --source-port " == " " + "--source-port " && " --ttl " == " " + "--ttl "
  {
  }

  /** One conditional append of the constructor: the literal text `spaced`
      (a space and the flag) followed by the value adds the fragment's piece. */
  lemma AppendPiece(prev: string, on: bool, spaced: string, flag: string, value: string, f: Fragment)
    requires spaced == " " + flag && Render(f) == flag + value
    ensures (if on then prev + spaced + value else prev) == prev + Piece(on, f)
  {
    if on {
      ConcatAssoc(prev, spaced, value);
      ConcatAssoc(" ", flag, value);
    } else {
      assert prev + "" == prev;
    }
  }

  lemma {:induction false} UntrimmedAppend(fs: seq<Fragment>, f: Fragment)
    ensures Untrimmed(fs + [f]) == Untrimmed(fs) + Appended(f)
  {
    if fs != [] {
      assert (fs + [f])[1..] == fs[1..] + [f];
      UntrimmedAppend(fs[1..], f);
    }
  }

  lemma UntrimmedOpt(on: bool, f: Fragment)
    ensures Untrimmed(Opt(on, f)) == Piece(on, f)
  {
    if on {
      assert Opt(on, f)[1..] == [];
      assert Appended(f) + "" == Appended(f);
    }
  }

  /** Appending a setting's fragment, or nothing when the setting is off. */
  lemma UntrimmedExtend(fs: seq<Fragment>, on: bool, f: Fragment)
    ensures Untrimmed(fs + Opt(on, f)) == Untrimmed(fs) + Piece(on, f)
  {
    if on {
      UntrimmedAppend(fs, f);
    } else {
      assert fs + Opt(on, f) == fs;
      assert Untrimmed(fs) + Piece(on, f) == Untrimmed(fs);
    }
  }

  /** What the constructor appends for one setting. */
  function Piece(on: bool, f: Fragment): string {
    if on then Appended(f) else ""
  }

  /** The untrimmed option text is the six settings' pieces in order. */
  lemma UntrimmedOfFragments(o: StealthOptions)
    ensures Untrimmed(Fragments(o))
            == Piece(TruthyString(o.decoy), Decoy(o.decoy.GetOr("")))
               + Piece(o.fragmentation, Fragmentation)
               + Piece(TruthyString(o.idleScanZombie), IdleScan(o.idleScanZombie.GetOr("")))
               + Piece(TruthyInt(o.timing), Timing(o.timing.GetOr(0)))
               + Piece(TruthyInt(o.sourcePort), SourcePort(o.sourcePort.GetOr(0)))
               + Piece(TruthyInt(o.ttl), Ttl(o.ttl.GetOr(0)))
  {
    var b0, f0 := TruthyString(o.decoy), Decoy(o.decoy.GetOr(""));
    var b1, f1 := o.fragmentation, Fragmentation;
    var b2, f2 := TruthyString(o.idleScanZombie), IdleScan(o.idleScanZombie.GetOr(""));
    var b3, f3 := TruthyInt(o.timing), Timing(o.timing.GetOr(0));
    var b4, f4 := TruthyInt(o.sourcePort), SourcePort(o.sourcePort.GetOr(0));
    var b5, f5 := TruthyInt(o.ttl), Ttl(o.ttl.GetOr(0));
    var fs0 := Opt(b0, f0);
    var fs1 := fs0 + Opt(b1, f1);
    var fs2 := fs1 + Opt(b2, f2);
    var fs3 := fs2 + Opt(b3, f3);
    var fs4 := fs3 + Opt(b4, f4);
    var fs := fs4 + Opt(b5, f5);
    var u1 := Piece(b0, f0) + Piece(b1, f1);
    var u3 := u1 + Piece(b2, f2) + Piece(b3, f3);
    assert Untrimmed(fs1) == u1 by {
      UntrimmedOpt(b0, f0);
      UntrimmedExtend(fs0, b1, f1);
    }
    assert Untrimmed(fs3) == u3 by {
      UntrimmedExtend(fs1, b2, f2);
      UntrimmedExtend(fs2, b3, f3);
    }
    assert Untrimmed(fs) == u3 + Piece(b4, f4) + Piece(b5, f5) by {
      UntrimmedExtend(fs3, b4, f4);
      UntrimmedExtend(fs4, b5, f5);
    }
    assert fs == Fragments(o);
  }

  lemma {:induction false} UntrimmedIsJoin(fs: seq<Fragment>)
    requires fs != []
    ensures Untrimmed(fs) == " " + Join(RenderAll(fs), ' ')
  {
    var r0 := Render(fs[0]);
    if |fs| > 1 {
      UntrimmedIsJoin(fs[1..]);
      var j := Join(RenderAll(fs[1..]), ' ');
      assert RenderAll(fs)[1..] == RenderAll(fs[1..]);
      assert Join(RenderAll(fs), ' ') == r0 + [' '] + j;
      assert " " + j == [' '] + j;
      ConcatAssoc(" ", r0, [' '] + j);
      ConcatAssoc(r0, [' '], j);
    }
  }

  lemma FlagStartsRender(f: Fragment)
    ensures Flag(f) <= Render(f)
    ensures Flag(f) != [] && NoWhitespace(Flag(f))
  {
  }

  lemma RenderIsJoinOfWords(f: Fragment)
    ensures Render(f) == Join(Words(f), ' ')
  {
  }

  lemma {:induction false} JoinRenderAll(fs: seq<Fragment>)
    requires fs != []
    ensures Join(RenderAll(fs), ' ') == Join(AllWords(fs), ' ')
    ensures |AllWords(fs)| >= 1
  {
    RenderIsJoinOfWords(fs[0]);
    if |fs| > 1 {
      JoinRenderAll(fs[1..]);
      JoinAppend(Words(fs[0]), AllWords(fs[1..]), ' ');
    } else {
      assert AllWords(fs) == Words(fs[0]) + [];
    }
  }

  /** With at least one fragment, the result is the fragments joined by
      single spaces, with only trailing whitespace of the last value removed,
      and it starts with the first fragment's flag. */
  lemma ArgumentsAreTrimmedJoin(fs: seq<Fragment>)
    requires fs != []
    ensures Arguments(fs) == TrimRight(Join(RenderAll(fs), ' '))
    ensures Flag(fs[0]) <= Arguments(fs)
  {
    var j := Join(RenderAll(fs), ' ');
    UntrimmedIsJoin(fs);
    var f0 := fs[0];
    FlagStartsRender(f0);
    var flag := Flag(f0);
    assert j[..|flag|] == flag by {
      assert Render(f0) <= j;
    }
    assert j == flag + j[|flag|..];
    TrimLeftSkips(" ", j);
    assert " " + j == Untrimmed(fs);
    TrimRightKeepsPrefix(flag, j[|flag|..]);
  }

  /** No fragment's flag begins the plain SYN scan option. */
  lemma FlagNotDefault(f: Fragment)
    ensures !(Flag(f) <= DefaultScanArguments)
  {
    match f
    case Decoy(_) => assert Flag(f)[1] == 'D';
    case Fragmentation => assert Flag(f)[1] == 'f';
    case IdleScan(_) => assert Flag(f)[2] == 'I';
    case Timing(_) => assert Flag(f)[1] == 'T';
    case SourcePort(_) => assert Flag(f)[1] == '-';
    case Ttl(_) => assert Flag(f)[1] == '-';
  }

  /** The fallback string is produced exactly when there is no fragment. */
  lemma ArgumentsDefaultIffEmpty(fs: seq<Fragment>)
    ensures Arguments(fs) == DefaultScanArguments <==> fs == []
  {
    if fs != [] {
      ArgumentsAreTrimmedJoin(fs);
      FlagNotDefault(fs[0]);
    }
  }

  /** The argument string is the plain SYN scan exactly when no setting is
      truthy. */
  lemma DefaultIffNothingSet(o: StealthOptions)
    ensures StealthArguments(o) == DefaultScanArguments
            <==> (&& !TruthyString(o.decoy) && !o.fragmentation && !TruthyString(o.idleScanZombie)
                  && !TruthyInt(o.timing) && !TruthyInt(o.sourcePort) && !TruthyInt(o.ttl))
  {
    ArgumentsDefaultIffEmpty(Fragments(o));
  }

  /** The fragments of `o` are exactly the switched-on settings' fragments. */
  lemma FragmentsMembers(o: StealthOptions)
    ensures forall g :: g in Fragments(o) <==>
      || (TruthyString(o.decoy) && g == Decoy(o.decoy.GetOr("")))
      || (o.fragmentation && g == Fragmentation)
      || (TruthyString(o.idleScanZombie) && g == IdleScan(o.idleScanZombie.GetOr("")))
      || (TruthyInt(o.timing) && g == Timing(o.timing.GetOr(0)))
      || (TruthyInt(o.sourcePort) && g == SourcePort(o.sourcePort.GetOr(0)))
      || (TruthyInt(o.ttl) && g == Ttl(o.ttl.GetOr(0)))
  {
    var a := Opt(TruthyString(o.decoy), Decoy(o.decoy.GetOr("")));
    var b := Opt(o.fragmentation, Fragmentation);
    var c := Opt(TruthyString(o.idleScanZombie), IdleScan(o.idleScanZombie.GetOr("")));
    var d := Opt(TruthyInt(o.timing), Timing(o.timing.GetOr(0)));
    var e := Opt(TruthyInt(o.sourcePort), SourcePort(o.sourcePort.GetOr(0)));
    var f := Opt(TruthyInt(o.ttl), Ttl(o.ttl.GetOr(0)));
    assert Fragments(o) == a + b + c + d + e + f;
    assert forall g :: g in Fragments(o) <==> g in a || g in b || g in c || g in d || g in e || g in f;
  }

  /** Each fragment is present exactly when its setting is truthy, and carries
      that setting's value; in particular `-T0` is never produced. */
  lemma FragmentPresence(o: StealthOptions)
    ensures Fragmentation in Fragments(o) <==> o.fragmentation
    ensures forall d :: Decoy(d) in Fragments(o) <==> TruthyString(o.decoy) && o.decoy.value == d
    ensures forall z :: IdleScan(z) in Fragments(o) <==> TruthyString(o.idleScanZombie) && o.idleScanZombie.value == z
    ensures forall t :: Timing(t) in Fragments(o) <==> TruthyInt(o.timing) && o.timing.value == t
    ensures forall p :: SourcePort(p) in Fragments(o) <==> TruthyInt(o.sourcePort) && o.sourcePort.value == p
    ensures forall t :: Ttl(t) in Fragments(o) <==> TruthyInt(o.ttl) && o.ttl.value == t
    ensures Timing(0) !in Fragments(o)
  {
    FragmentsMembers(o);
  }

  /** Every fragment of `fs` ranks below `k`. */
  predicate RankedBelow(fs: seq<Fragment>, k: nat) {
    forall i :: 0 <= i < |fs| ==> Rank(fs[i]) < k
  }

  /** Ranks strictly increase along `fs`. */
  predicate StrictlyRanked(fs: seq<Fragment>) {
    forall i, j :: 0 <= i < j < |fs| ==> Rank(fs[i]) < Rank(fs[j])
  }

  lemma RankedExtend(fs: seq<Fragment>, on: bool, f: Fragment)
    requires StrictlyRanked(fs) && RankedBelow(fs, Rank(f))
    ensures StrictlyRanked(fs + Opt(on, f)) && RankedBelow(fs + Opt(on, f), Rank(f) + 1)
  {
  }

  /** Present fragments appear in the fixed order -D, -f, -sI, -T,
      --source-port, --ttl, each at most once. */
  lemma FragmentsOrdered(o: StealthOptions)
    ensures StrictlyRanked(Fragments(o))
  {
    var f1 := Opt(TruthyString(o.decoy), Decoy(o.decoy.GetOr("")));
    var f2 := f1 + Opt(o.fragmentation, Fragmentation);
    var f3 := f2 + Opt(TruthyString(o.idleScanZombie), IdleScan(o.idleScanZombie.GetOr("")));
    var f4 := f3 + Opt(TruthyInt(o.timing), Timing(o.timing.GetOr(0)));
    var f5 := f4 + Opt(TruthyInt(o.sourcePort), SourcePort(o.sourcePort.GetOr(0)));
    var f6 := f5 + Opt(TruthyInt(o.ttl), Ttl(o.ttl.GetOr(0)));
    assert Fragments(o) == f6;
    assert StrictlyRanked(f1) && RankedBelow(f1, 1);
    assert StrictlyRanked(f2) && RankedBelow(f2, 2) by {
      RankedExtend(f1, o.fragmentation, Fragmentation);
    }
    assert StrictlyRanked(f3) && RankedBelow(f3, 3) by {
      RankedExtend(f2, TruthyString(o.idleScanZombie), IdleScan(o.idleScanZombie.GetOr("")));
    }
    assert StrictlyRanked(f4) && RankedBelow(f4, 4) by {
      RankedExtend(f3, TruthyInt(o.timing), Timing(o.timing.GetOr(0)));
    }
    assert StrictlyRanked(f5) && RankedBelow(f5, 5) by {
      RankedExtend(f4, TruthyInt(o.sourcePort), SourcePort(o.sourcePort.GetOr(0)));
    }
    RankedExtend(f5, TruthyInt(o.ttl), Ttl(o.ttl.GetOr(0)));
  }

  lemma WordsShape(f: Fragment)
    requires WordValued(f)
    ensures forall i :: 0 <= i < |Words(f)| ==> Words(f)[i] != [] && NoWhitespace(Words(f)[i])
  {
    var ws := Words(f);
    match f
    case Timing(t) => IntToDecimalChars(t); assert ws[0] == "-T" + IntToDecimal(t);
    case SourcePort(p) => IntToDecimalChars(p); assert ws[1] == IntToDecimal(p);
    case Ttl(t) => IntToDecimalChars(t); assert ws[1] == IntToDecimal(t);
    case _ =>
  }

  lemma {:induction false} AllWordsShape(fs: seq<Fragment>)
    requires forall i :: 0 <= i < |fs| ==> WordValued(fs[i])
    ensures forall i :: 0 <= i < |AllWords(fs)| ==> AllWords(fs)[i] != [] && NoWhitespace(AllWords(fs)[i])
  {
    if fs != [] {
      AllWordsShape(fs[1..]);
      WordsShape(fs[0]);
      assert AllWords(fs) == Words(fs[0]) + AllWords(fs[1..]);
    }
  }

  /** Reading one fragment's words in front of other words gives that fragment
      in front of what the other words read as. */
  lemma ParseWordsStep(f: Fragment, rest: seq<string>)
    ensures ParseWords(Words(f) + rest) == Prepend(f, ParseWords(rest))
  {
    match f
    case Decoy(d) => ParseFlagValue("-D", d, rest);
    case Fragmentation =>
      var ws := Words(f) + rest;
      assert ws[0] == "-f" && ws[1..] == rest;
    case IdleScan(z) => ParseFlagValue("-sI", z, rest);
    case Timing(t) => ParseTimingStep(t, rest);
    case SourcePort(p) =>
      IntToDecimalRoundTrip(p);
      ParseFlagValue("--source-port", IntToDecimal(p), rest);
    case Ttl(t) =>
      IntToDecimalRoundTrip(t);
      ParseFlagValue("--ttl", IntToDecimal(t), rest);
  }

  /** Words beginning with a flag and its value split off those two words. */
  lemma ParseFlagValue(flag: string, value: string, rest: seq<string>)
    ensures var ws := [flag, value] + rest;
      |ws| >= 2 && ws[0] == flag && ws[1] == value && ws[2..] == rest
  {
    var ws := [flag, value] + rest;
    assert ws[2..] == rest;
  }

  lemma ParseTimingStep(t: int, rest: seq<string>)
    ensures ParseWords(["-T" + IntToDecimal(t)] + rest) == Prepend(Timing(t), ParseWords(rest))
  {
    var w := "-T" + IntToDecimal(t);
    var ws := [w] + rest;
    IntToDecimalRoundTrip(t);
    assert ws[0] == w && ws[1..] == rest;
    assert w[..2] == "-T" && w[2..] == IntToDecimal(t);
    assert w[1] == 'T';
    assert w != "-f" && w != "-D" && w != "-sI" && w != "--source-port" && w != "--ttl";
  }

  lemma {:induction false} ParseAllWords(fs: seq<Fragment>)
    ensures ParseWords(AllWords(fs)) == Some(fs)
  {
    if fs != [] {
      ParseAllWords(fs[1..]);
      ParseWordsStep(fs[0], AllWords(fs[1..]));
      assert [fs[0]] + fs[1..] == fs;
    }
  }

  /** Under whitespace-free settings every fragment's values are words. */
  lemma FragmentsWordValued(o: StealthOptions)
    requires NoWhitespaceValues(o)
    ensures forall i :: 0 <= i < |Fragments(o)| ==> WordValued(Fragments(o)[i])
  {
    FragmentPresence(o);
    forall i | 0 <= i < |Fragments(o)| ensures WordValued(Fragments(o)[i]) {
      var f := Fragments(o)[i];
      assert f in Fragments(o);
    }
  }

  /** Fragments whose values are words give exactly their words joined by
      single spaces. */
  lemma {:induction false} ArgumentsAreJoinedWords(fs: seq<Fragment>)
    requires fs != []
    requires forall i :: 0 <= i < |fs| ==> WordValued(fs[i])
    ensures Arguments(fs) == Join(AllWords(fs), ' ')
    ensures SingleSpaced(Arguments(fs))
  {
    ArgumentsAreTrimmedJoin(fs);
    JoinRenderAll(fs);
    AllWordsShape(fs);
    var j := Join(AllWords(fs), ' ');
    JoinSingleSpaced(AllWords(fs));
    TrimRightSkips(j, []);
    assert j + [] == j;
  }

  /** When the decoy and zombie strings hold no whitespace, the argument
      string has no leading or trailing whitespace and no doubled space; with
      some setting active it is the present fragments' words joined by single
      spaces. */
  lemma ArgumentsSingleSpaced(o: StealthOptions)
    requires NoWhitespaceValues(o)
    ensures SingleSpaced(StealthArguments(o))
    ensures Fragments(o) != [] ==> StealthArguments(o) == Join(AllWords(Fragments(o)), ' ')
  {
    if Fragments(o) != [] {
      FragmentsWordValued(o);
      ArgumentsAreJoinedWords(Fragments(o));
    }
  }

  /** Fragments whose values are words read back from their argument string. */
  lemma ParseArgumentsOf(fs: seq<Fragment>)
    requires forall i :: 0 <= i < |fs| ==> WordValued(fs[i])
    ensures ParseArguments(Arguments(fs)) == Some(fs)
  {
    if fs != [] {
      ArgumentsDefaultIffEmpty(fs);
      ArgumentsAreJoinedWords(fs);
      AllWordsShape(fs);
      var ws := AllWords(fs);
      forall i | 0 <= i < |ws| ensures ' ' !in ws[i] {
        assert forall k :: 0 <= k < |ws[i]| ==> ws[i][k] != ' ';
      }
      SplitJoin(ws, ' ');
      ParseAllWords(fs);
    }
  }

  /** The argument string reads back as exactly the fragments the settings
      switch on, in order, provided the decoy and zombie strings hold no
      whitespace. */
  lemma ParseRoundTrip(o: StealthOptions)
    requires NoWhitespaceValues(o)
    ensures ParseArguments(StealthArguments(o)) == Some(Fragments(o))
  {
    FragmentsWordValued(o);
    ParseArgumentsOf(Fragments(o));
  }

  lemma {:induction false} WordsInAllWords(fs: seq<Fragment>, i: nat)
    requires i < |fs|
    ensures forall w :: w in Words(fs[i]) ==> w in AllWords(fs)
  {
    assert AllWords(fs) == Words(fs[0]) + AllWords(fs[1..]);
    if i > 0 {
      WordsInAllWords(fs[1..], i - 1);
      assert fs[1..][i - 1] == fs[i];
    }
  }

  /** A truthy timing level shows up as one word of the argument string: `-T`
      glued to the level's decimal digits. */
  lemma TimingWord(o: StealthOptions)
    requires NoWhitespaceValues(o) && TruthyInt(o.timing)
    ensures "-T" + IntToDecimal(o.timing.value) in Split(StealthArguments(o), ' ')
  {
    var fs := Fragments(o);
    FragmentPresence(o);
    assert Timing(o.timing.value) in fs;
    var i :| 0 <= i < |fs| && fs[i] == Timing(o.timing.value);
    WordsInAllWords(fs, i);
    assert Words(fs[i]) == ["-T" + IntToDecimal(o.timing.value)];
    ArgumentsSingleSpaced(o);
    FragmentsWordValued(o);
    AllWordsShape(fs);
    var ws := AllWords(fs);
    forall j | 0 <= j < |ws| ensures ' ' !in ws[j] {
      assert forall k :: 0 <= k < |ws[j]| ==> ws[j][k] != ' ';
    }
    assert |ws| >= 1;
    SplitJoin(ws, ' ');
  }

  /** The constructor example: random decoys, fragmentation and timing
      template 1. */
  lemma RandomDecoyExample()
    ensures StealthArguments(StealthOptions(Some("RND:10"), true, None, Some(1), None, None))
            == "-D RND:10 -f -T1"
  {
    var o := StealthOptions(Some("RND:10"), true, None, Some(1), None, None);
    var fs := [Decoy("RND:10"), Fragmentation, Timing(1)];
    assert Fragments(o) == fs by {
      assert TruthyString(o.decoy) && TruthyInt(o.timing);
    }
    ExampleUntrimmed();
    ExampleStrip();
  }

  lemma ExampleStrip()
    ensures Strip(" -D RND:10 -f -T1") == "-D RND:10 -f -T1"
  {
    assert " -D RND:10 -f -T1" == " " + "-D RND:10 -f -T1" + "";
    StripUnique(" ", "-D RND:10 -f -T1", "");
  }

  lemma ExampleUntrimmed()
    ensures Untrimmed([Decoy("RND:10"), Fragmentation, Timing(1)]) == " -D RND:10 -f -T1"
  {
    var fs := [Decoy("RND:10"), Fragmentation, Timing(1)];
    assert Appended(Timing(1)) == " -T1" by {
      assert IntToDecimal(1) == "1";
    }
    assert Untrimmed(fs[2..]) == " -T1" by {
      assert fs[2..][1..] == [];
    }
    assert fs[1..][1..] == fs[2..];
    assert Untrimmed(fs[1..]) == " -f -T1";
  }

  /** Building the stealth scanner of the example stores that string. */
  method ExampleScanner() returns (scanner: NmapScanner)
    ensures scanner.scanArguments == "-D RND:10 -f -T1"
  {
    RandomDecoyExample();
    scanner := new NmapScanner.Stealth(decoy := Some("RND:10"), fragmentation := true, timing := Some(1));
  }
}
