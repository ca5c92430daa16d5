/** Three scanners of one argument list that have to agree on where the `appkit` command is:
    the early look, the bootstrap parser, and the one that cuts out appkit's own arguments. */
module ArgScanners {
  import opened Wrappers

  const APPKIT := "appkit"
  const SEPARATOR := "--"
  const DESCRIBE := "--describe-commands"
  const WRITE_EXTENSIONS := "--write-extensions"

  // ---------------------------------------------------------------- single arguments

  datatype Flag = BaseUrl | ServicePath | Playpen | GoosemcpPlaypen | Timeout | WriteExtensions

  function FromName(name: string): Option<Flag> {
    if name == "--base-url" then Some(BaseUrl)
    else if name == "--kgoose-service-path" then Some(ServicePath)
    else if name == "--playpen" then Some(Playpen)
    else if name == "--goosemcp-playpen" then Some(GoosemcpPlaypen)
    else if name == "--timeout" then Some(Timeout)
    else if name == WRITE_EXTENSIONS then Some(WriteExtensions)
    else None
  }

  datatype Assignment = Assignment(name: string, value: string)

  /** At the first `=`. */
  function SplitOnce(arg: string): (r: Option<Assignment>)
    ensures r.Some? ==> arg == r.value.name + "=" + r.value.value && '=' !in r.value.name
    ensures r.None? <==> '=' !in arg
  {
    if arg == "" then None
    else if arg[0] == '=' then Some(Assignment("", arg[1..]))
    else
      match SplitOnce(arg[1..])
      case None => None
      case Some(a) => Some(Assignment([arg[0]] + a.name, a.value))
  }

  datatype Setting = Setting(flag: Flag, value: string)

  function SplitGlobalValueAssignment(arg: string): Option<Setting> {
    match SplitOnce(arg)
    case None => None
    case Some(a) => (match FromName(a.name) case Some(flag) => Some(Setting(flag, a.value)) case None => None)
  }

  datatype Switch = Describe | Summary | Version

  function SwitchOf(arg: string): Option<Switch> {
    if arg == DESCRIBE then Some(Describe)
    else if arg == "--summary" then Some(Summary)
    else if arg == "--version" || arg == "-V" then Some(Version)
    else None
  }

  predicate IsGlobalSwitchFlag(arg: string) {
    arg == DESCRIBE || arg == "--summary" || arg == "--version" || arg == "-V"
  }

  function GlobalArgSkipCount(arg: string): nat {
    if FromName(arg).Some? then 2
    else if SplitGlobalValueAssignment(arg).Some? || IsGlobalSwitchFlag(arg) then 1
    else 0
  }

  predicate IsBootstrapMetadataPrefix(arg: string) {
    arg == DESCRIBE || arg == "--summary" || arg == WRITE_EXTENSIONS || WRITE_EXTENSIONS + "=" <= arg
  }

  /** The options that take a value, and no other. */
  lemma TheFlags(arg: string)
    ensures FromName("--base-url") == Some(BaseUrl) && FromName("--kgoose-service-path") == Some(ServicePath)
    ensures FromName("--playpen") == Some(Playpen) && FromName("--goosemcp-playpen") == Some(GoosemcpPlaypen)
    ensures FromName("--timeout") == Some(Timeout) && FromName("--write-extensions") == Some(WriteExtensions)
    ensures FromName(arg).Some? ==>
              || arg == "--base-url" || arg == "--kgoose-service-path" || arg == "--playpen"
              || arg == "--goosemcp-playpen" || arg == "--timeout" || arg == "--write-extensions"
  {
  }

  /** The options that stand alone: the four switches, and a value option with its value
      behind an equals sign. */
  lemma TheLoneOptions(arg: string)
    requires FromName(arg) == None
    ensures GlobalArgSkipCount(arg) == 1 <==>
              || arg == "--describe-commands" || arg == "--summary" || arg == "--version" || arg == "-V"
              || exists name, value :: IsAssignment(arg, name, value)
  {
    match SplitOnce(arg)
    case None =>
      forall name, value ensures !IsAssignment(arg, name, value) {
        if IsAssignment(arg, name, value) {
          SplitAtFirst(name, value);
        }
      }
    case Some(a) =>
      if FromName(a.name).Some? {
        assert IsAssignment(arg, a.name, a.value);
      } else {
        forall name, value ensures !IsAssignment(arg, name, value) {
          if IsAssignment(arg, name, value) {
            SplitAtFirst(name, value);
          }
        }
      }
  }

  ghost predicate IsAssignment(arg: string, name: string, value: string) {
    FromName(name).Some? && '=' !in name && arg == name + "=" + value
  }

  /** What asks for the command catalog. */
  lemma TheMetadataOptions(arg: string)
    ensures IsBootstrapMetadataPrefix(arg) <==>
              || arg == "--describe-commands" || arg == "--summary" || arg == "--write-extensions"
              || "--write-extensions" + "=" <= arg
  {
  }

  /** What an argument is to the scanners. */
  datatype Kind =
    | AppkitWord
    | Separator
    | TakesValue(flag: Flag)
    | Assigns(flag: Flag, value: string)
    | Turns(switch: Switch)
    | Word

  function KindOf(arg: string): Kind {
    if arg == APPKIT then AppkitWord
    else if arg == SEPARATOR then Separator
    else
      match FromName(arg)
      case Some(flag) => TakesValue(flag)
      case None =>
        match SplitGlobalValueAssignment(arg)
        case Some(s) => Assigns(s.flag, s.value)
        case None => (match SwitchOf(arg) case Some(switch) => Turns(switch) case None => Word)
  }

  function Skip(k: Kind): nat {
    match k
    case TakesValue(_) => 2
    case Assigns(_, _) => 1
    case Turns(_) => 1
    case _ => 0
  }

  /** It asks for the command catalog. */
  predicate AsksForMetadata(k: Kind) {
    match k
    case TakesValue(flag) => flag.WriteExtensions?
    case Assigns(flag, _) => flag.WriteExtensions?
    case Turns(switch) => !switch.Version?
    case _ => false
  }

  lemma NeitherIsAnOption()
    ensures GlobalArgSkipCount(APPKIT) == 0 && GlobalArgSkipCount(SEPARATOR) == 0
    ensures !IsBootstrapMetadataPrefix(APPKIT) && !IsBootstrapMetadataPrefix(SEPARATOR)
    ensures APPKIT != SEPARATOR
  {
    assert '=' !in APPKIT && '=' !in SEPARATOR;
    assert APPKIT[0] == 'a' && |SEPARATOR| == 2;
  }

  lemma {:induction false} SplitAtFirst(name: string, value: string)
    requires '=' !in name
    ensures SplitOnce(name + "=" + value) == Some(Assignment(name, value))
  {
    var arg := name + "=" + value;
    if name == "" {
      assert arg == "=" + value && arg[1..] == value;
    } else {
      assert arg[1..] == name[1..] + "=" + value;
      SplitAtFirst(name[1..], value);
      assert [name[0]] + name[1..] == name;
    }
  }

  lemma WriteExtensionsIsFlag()
    ensures FromName(WRITE_EXTENSIONS) == Some(WriteExtensions) && '=' !in WRITE_EXTENSIONS
  {
  }

  lemma {:induction false} AssignmentSplits(arg: string)
    ensures SplitOnce(arg).Some? && FromName(SplitOnce(arg).value.name) == Some(WriteExtensions)
            <==> WRITE_EXTENSIONS + "=" <= arg
  {
    if WRITE_EXTENSIONS + "=" <= arg {
      var prefix := WRITE_EXTENSIONS + "=";
      assert arg == prefix + arg[|prefix|..];
      WriteExtensionsIsFlag();
      SplitAtFirst(WRITE_EXTENSIONS, arg[|prefix|..]);
    }
  }

  lemma MetadataParts(arg: string)
    ensures IsBootstrapMetadataPrefix(arg) <==>
              || FromName(arg) == Some(WriteExtensions)
              || (SplitGlobalValueAssignment(arg).Some? && SplitGlobalValueAssignment(arg).value.flag.WriteExtensions?)
              || SwitchOf(arg) == Some(Describe) || SwitchOf(arg) == Some(Summary)
  {
    AssignmentSplits(arg);
    WriteExtensionsIsFlag();
  }

  /** What asks for the catalog is an option. */
  lemma MetadataIsOption(arg: string)
    ensures IsBootstrapMetadataPrefix(arg) <==> AsksForMetadata(KindOf(arg))
  {
    MetadataParts(arg);
    NamesHaveNoEquals(arg);
    if arg == APPKIT || arg == SEPARATOR {
      NeitherIsAnOption();
    } else if FromName(arg).Some? {
    } else if SplitGlobalValueAssignment(arg).Some? {
    }
  }

  lemma NamesHaveNoEquals(arg: string)
    ensures FromName(arg).Some? ==> '=' !in arg && SwitchOf(arg).None?
    ensures SwitchOf(arg).Some? ==> '=' !in arg
    ensures SwitchOf(arg).Some? <==> IsGlobalSwitchFlag(arg)
  {
  }

  /** All that the scanners learn of an argument. */
  ghost predicate IsOfKind(arg: string, k: Kind) {
    && (k.AppkitWord? <==> arg == APPKIT) && (k.Separator? <==> arg == SEPARATOR)
    && Skip(k) == GlobalArgSkipCount(arg) && (AsksForMetadata(k) <==> IsBootstrapMetadataPrefix(arg))
    && FromName(arg) == (if k.TakesValue? then Some(k.flag) else None)
    && SplitGlobalValueAssignment(arg) == (if k.Assigns? then Some(Setting(k.flag, k.value)) else None)
    && SwitchOf(arg) == (if k.Turns? then Some(k.switch) else None)
  }

  lemma KindFacts(arg: string)
    ensures IsOfKind(arg, KindOf(arg))
  {
    NeitherIsAnOption();
    NamesHaveNoEquals(arg);
    MetadataIsOption(arg);
  }

  function Kinds(args: seq<string>): (ks: seq<Kind>)
    ensures |ks| == |args|
  {
    seq(|args|, i requires 0 <= i < |args| => KindOf(args[i]))
  }

  /** `ks` are the kinds of the arguments. */
  ghost predicate AreOfKinds(args: seq<string>, ks: seq<Kind>) {
    |ks| == |args| && forall i {:trigger IsOfKind(args[i], ks[i])} :: 0 <= i < |ks| ==> IsOfKind(args[i], ks[i])
  }

  lemma KindAt(args: seq<string>, ks: seq<Kind>, i: nat)
    requires AreOfKinds(args, ks) && i < |args|
    ensures (ks[i].AppkitWord? <==> args[i] == APPKIT) && (ks[i].Separator? <==> args[i] == SEPARATOR)
    ensures Skip(ks[i]) == GlobalArgSkipCount(args[i])
  {
    assert IsOfKind(args[i], ks[i]);
  }

  lemma OptionAt(args: seq<string>, ks: seq<Kind>, i: nat)
    requires AreOfKinds(args, ks) && i < |args|
    ensures FromName(args[i]) == (if ks[i].TakesValue? then Some(ks[i].flag) else None)
    ensures SplitGlobalValueAssignment(args[i]) ==
            (if ks[i].Assigns? then Some(Setting(ks[i].flag, ks[i].value)) else None)
    ensures SwitchOf(args[i]) == (if ks[i].Turns? then Some(ks[i].switch) else None)
  {
    assert IsOfKind(args[i], ks[i]);
  }

  lemma MetadataAt(args: seq<string>, ks: seq<Kind>, i: nat)
    requires AreOfKinds(args, ks) && i < |args|
    ensures AsksForMetadata(ks[i]) <==> IsBootstrapMetadataPrefix(args[i])
  {
    assert IsOfKind(args[i], ks[i]);
  }

  lemma KindsAreRight(args: seq<string>)
    ensures AreOfKinds(args, Kinds(args))
  {
    forall i | 0 <= i < |args| ensures IsOfKind(args[i], Kinds(args)[i]) {
      KindFacts(args[i]);
    }
  }

  // ---------------------------------------------------------------- where the first token is

  datatype Position = Position(index: nat, afterSeparator: bool)

  /** The argument that is neither an option nor an option's value, at or after `i`. */
  function FirstToken(ks: seq<Kind>, i: nat): (r: Option<Position>)
    ensures r.Some? ==> i <= r.value.index < |ks|
    decreases |ks| - i
  {
    if i >= |ks| then None
    else if ks[i].Separator? then (if i + 1 < |ks| then Some(Position(i + 1, true)) else None)
    else if Skip(ks[i]) == 0 then Some(Position(i, false))
    else FirstToken(ks, i + Skip(ks[i]))
  }

  /** Reading from `i`, argument `k` is the value of the option before it. */
  predicate IsValue(ks: seq<Kind>, i: nat, k: nat)
    decreases |ks| - i
  {
    i < |ks| && !ks[i].Separator? &&
    if ks[i].TakesValue? then k == i + 1 || IsValue(ks, i + 2, k) else IsValue(ks, i + 1, k)
  }

  /** Some option read before the first token asks for the command catalog. */
  predicate HasMetadata(ks: seq<Kind>, i: nat)
    decreases |ks| - i
  {
    i < |ks| && Skip(ks[i]) > 0 && (AsksForMetadata(ks[i]) || HasMetadata(ks, i + Skip(ks[i])))
  }

  lemma {:induction false} NoValueBefore(ks: seq<Kind>, i: nat, k: nat)
    requires k <= i
    ensures !IsValue(ks, i, k)
    decreases |ks| - i
  {
    if i < |ks| {
      NoValueBefore(ks, i + 2, k);
      NoValueBefore(ks, i + 1, k);
    }
  }

  lemma {:induction false} FirstTokenIsNoValue(ks: seq<Kind>, i: nat)
    requires FirstToken(ks, i).Some?
    ensures !IsValue(ks, i, FirstToken(ks, i).value.index)
    decreases |ks| - i
  {
    if !ks[i].Separator? {
      if Skip(ks[i]) == 0 {
        NoValueBefore(ks, i + 1, i);
      } else {
        FirstTokenIsNoValue(ks, i + Skip(ks[i]));
      }
    }
  }

  // ---------------------------------------------------------------- the early look

  function PositionFrom(ks: seq<Kind>, i: nat): (r: Option<Position>)
    ensures r.Some? ==> i <= r.value.index < |ks|
    decreases |ks| - i
  {
    if i >= |ks| then None
    else
      match ks[i]
      case AppkitWord => Some(Position(i, false))
      case Separator => if i + 1 < |ks| && ks[i + 1].AppkitWord? then Some(Position(i + 1, true)) else None
      case Word => None
      case _ => if AsksForMetadata(ks[i]) then None else PositionFrom(ks, i + Skip(ks[i]))
  }

  method AppkitCommandPosition(args: seq<string>, ghost ks: seq<Kind>) returns (p: Option<Position>)
    requires AreOfKinds(args, ks)
    ensures p == PositionFrom(ks, 0)
  {
    var index := 0;
    while index < |args|
      invariant PositionFrom(ks, 0) == PositionFrom(ks, index)
      decreases |args| - index
    {
      var arg := args[index];
      KindAt(args, ks, index);
      MetadataAt(args, ks, index);
      if arg == APPKIT {
        return Some(Position(index, false));
      }
      if arg == SEPARATOR {
        if index + 1 < |args| {
          KindAt(args, ks, index + 1);
        }
        if index + 1 < |args| && args[index + 1] == APPKIT {
          return Some(Position(index + 1, true));
        }
        return None;
      }
      if IsBootstrapMetadataPrefix(arg) {
        return None;
      }
      var skip := GlobalArgSkipCount(arg);
      if skip == 0 {
        return None;
      }
      index := index + skip;
    }
    return None;
  }

  /** The early look finds the command exactly when the first token is `appkit` and no option
      before it asks for the catalog; and it finds that token. */
  lemma {:induction false} EarlyLookFindsTheFirstToken(ks: seq<Kind>, i: nat)
    ensures PositionFrom(ks, i).Some? <==>
              FirstToken(ks, i).Some? && ks[FirstToken(ks, i).value.index].AppkitWord? && !HasMetadata(ks, i)
    ensures PositionFrom(ks, i).Some? ==> PositionFrom(ks, i) == FirstToken(ks, i)
    decreases |ks| - i
  {
    if i < |ks| && Skip(ks[i]) > 0 {
      EarlyLookFindsTheFirstToken(ks, i + Skip(ks[i]));
    }
  }

  /** Whether appkit runs without the bootstrap parser having seen the arguments. */
  method ShouldRunBeforeBootstrap(args: seq<string>) returns (run: bool)
    ensures var early := PositionFrom(Kinds(args), 0);
            run <==> early.Some? && (early.value.afterSeparator || DESCRIBE !in args[early.value.index + 1..])
  {
    KindsAreRight(args);
    var position := AppkitCommandPosition(args, Kinds(args));
    if position.None? {
      return false;
    }
    return position.value.afterSeparator || DESCRIBE !in args[position.value.index + 1..];
  }

  // ---------------------------------------------------------------- appkit's own arguments

  /** Where appkit's own arguments begin. */
  function AfterFrom(ks: seq<Kind>, i: nat): (r: nat)
    ensures r <= |ks|
    decreases |ks| - i
  {
    if i >= |ks| then |ks|
    else if ks[i].AppkitWord? then i + 1
    else if ks[i].Separator? && i + 1 < |ks| && ks[i + 1].AppkitWord? then i + 2
    else AfterFrom(ks, i + AtLeastOne(Skip(ks[i])))
  }

  function AtLeastOne(n: nat): (r: nat)
    ensures r >= 1
  {
    if n == 0 then 1 else n
  }

  method RawArgsAfterAppkit(args: seq<string>, ghost ks: seq<Kind>) returns (rest: seq<string>)
    requires AreOfKinds(args, ks)
    ensures rest == args[AfterFrom(ks, 0)..]
  {
    var index := 0;
    while index < |args|
      invariant AfterFrom(ks, 0) == AfterFrom(ks, index)
      decreases |args| - index
    {
      var arg := args[index];
      KindAt(args, ks, index);
      if arg == APPKIT {
        return args[index + 1..];
      }
      if arg == SEPARATOR {
        if index + 1 < |args| {
          KindAt(args, ks, index + 1);
        }
        if index + 1 < |args| && args[index + 1] == APPKIT {
          return args[index + 2..];
        }
        index := index + 1;
      } else {
        index := index + AtLeastOne(GlobalArgSkipCount(arg));
      }
    }
    assert args[|args|..] == [];
    return [];
  }

  /** When the first token is `appkit`, what is cut out is everything behind it. */
  lemma {:induction false} CutFollowsFirstToken(ks: seq<Kind>, i: nat)
    requires FirstToken(ks, i).Some? && ks[FirstToken(ks, i).value.index].AppkitWord?
    ensures AfterFrom(ks, i) == FirstToken(ks, i).value.index + 1
    decreases |ks| - i
  {
    if Skip(ks[i]) > 0 {
      CutFollowsFirstToken(ks, i + Skip(ks[i]));
    }
  }

  // ---------------------------------------------------------------- the bootstrap parser

  /** What the parser reads at one argument: a value for an option, a switch, an option that
      lacks its value, a word of the command, or the separator with all that follows. */
  datatype Said =
    | Sets(flag: Flag, value: string)
    | Lacks(flag: Flag)
    | Switches(switch: Switch)
    | Rest(texts: seq<string>)
    | Token(text: string)

  function SaidAt(args: seq<string>, ks: seq<Kind>, i: nat): Said
    requires i < |args| == |ks|
  {
    match ks[i]
    case TakesValue(flag) => if i + 1 < |args| then Sets(flag, args[i + 1]) else Lacks(flag)
    case Assigns(flag, value) => Sets(flag, value)
    case Turns(switch) => Switches(switch)
    case Separator => Rest(args[i + 1..])
    case _ => Token(args[i])
  }

  function NextAt(ks: seq<Kind>, i: nat): (r: nat)
    requires i < |ks|
    ensures r > i
  {
    if ks[i].Separator? then |ks| else i + AtLeastOne(Skip(ks[i]))
  }

  /** All that is read from `i` on. */
  function SaidFrom(args: seq<string>, ks: seq<Kind>, i: nat): seq<Said>
    requires |args| == |ks|
    decreases |args| - i
  {
    if i >= |args| then [] else [SaidAt(args, ks, i)] + SaidFrom(args, ks, NextAt(ks, i))
  }

  datatype Bootstrap = Bootstrap(values: map<Flag, string>, tokens: seq<string>, describe: bool, summary: bool,
                                 version: bool)

  const NOTHING := Bootstrap(map[], [], false, false, false)

  /** `b` with one more thing read. */
  function Told(b: Bootstrap, said: Said): Bootstrap {
    match said
    case Sets(flag, value) => b.(values := b.values[flag := value])
    case Lacks(_) => b
    case Switches(Describe) => b.(describe := true)
    case Switches(Summary) => b.(summary := true)
    case Switches(Version) => b.(version := true)
    case Rest(texts) => b.(tokens := b.tokens + texts)
    case Token(text) => b.(tokens := b.tokens + [text])
  }

  /** Every option has its value, and a service path or a timeout one that passes its check.
      `accepts` stands for the two checks; every other value is taken as it is. */
  predicate Acceptable(said: Said, accepts: (Flag, string) -> bool) {
    match said
    case Sets(flag, value) => flag.ServicePath? || flag.Timeout? ==> accepts(flag, value)
    case Lacks(_) => false
    case _ => true
  }

  /** `None` is a missing or refused value. */
  function ToldAll(b: Bootstrap, said: seq<Said>, accepts: (Flag, string) -> bool): Option<Bootstrap>
    decreases |said|
  {
    if said == [] then Some(b)
    else if !Acceptable(said[0], accepts) then None
    else ToldAll(Told(b, said[0]), said[1..], accepts)
  }

  function BootFrom(args: seq<string>, ks: seq<Kind>, i: nat, b: Bootstrap, accepts: (Flag, string) -> bool)
    : Option<Bootstrap>
    requires |args| == |ks|
  {
    ToldAll(b, SaidFrom(args, ks, i), accepts)
  }

  /** The argument at `i` is read, by what it is. */
  lemma Reads(args: seq<string>, ks: seq<Kind>, i: nat) returns (said: Said, next: nat)
    requires AreOfKinds(args, ks) && i < |args|
    ensures i < next && SaidFrom(args, ks, i) == [said] + SaidFrom(args, ks, next)
    ensures var named, assignment, switch :=
              FromName(args[i]), SplitGlobalValueAssignment(args[i]), SwitchOf(args[i]);
            if named.Some? then
              next == i + 2 && said == if i + 1 < |args| then Sets(named.value, args[i + 1]) else Lacks(named.value)
            else if assignment.Some? then
              next == i + 1 && said == Sets(assignment.value.flag, assignment.value.value)
            else if switch.Some? then next == i + 1 && said == Switches(switch.value)
            else if args[i] == SEPARATOR then next == |args| && said == Rest(args[i + 1..])
            else next == i + 1 && said == Token(args[i])
  {
    KindAt(args, ks, i);
    OptionAt(args, ks, i);
    said, next := SaidAt(args, ks, i), NextAt(ks, i);
  }

  lemma ToldOne(b: Bootstrap, said: Said, rest: seq<Said>, accepts: (Flag, string) -> bool)
    ensures ToldAll(b, [said] + rest, accepts) ==
            if Acceptable(said, accepts) then ToldAll(Told(b, said), rest, accepts) else None
  {
    assert ([said] + rest)[1..] == rest;
  }

  method ApplyGlobalValueFlag(values: map<Flag, string>, flag: Flag, value: string, accepts: (Flag, string) -> bool)
    returns (r: Option<map<Flag, string>>)
    ensures r == if Acceptable(Sets(flag, value), accepts) then Some(values[flag := value]) else None
  {
    if (flag.ServicePath? || flag.Timeout?) && !accepts(flag, value) {
      return None;
    }
    return Some(values[flag := value]);
  }

  method BootstrapArgs(args: seq<string>, accepts: (Flag, string) -> bool, ghost ks: seq<Kind>)
    returns (r: Option<Bootstrap>)
    requires AreOfKinds(args, ks)
    ensures r == BootFrom(args, ks, 0, NOTHING, accepts)
  {
    var values: map<Flag, string>, tokens, describe, summary, version := map[], [], false, false, false;
    var i := 0;
    ghost var todo, whole := SaidFrom(args, ks, 0), BootFrom(args, ks, 0, NOTHING, accepts);
    while i < |args|
      invariant todo == SaidFrom(args, ks, i)
      invariant whole == ToldAll(Bootstrap(values, tokens, describe, summary, version), todo, accepts)
      decreases |args| - i
    {
      ghost var said, next := Reads(args, ks, i);
      todo := SaidFrom(args, ks, next);
      ToldOne(Bootstrap(values, tokens, describe, summary, version), said, todo, accepts);
      var arg := args[i];
      i := i + 1;
      var named, assignment, switch := FromName(arg), SplitGlobalValueAssignment(arg), SwitchOf(arg);
      if named.Some? {
        if i == |args| {
          return None;
        }
        var applied := ApplyGlobalValueFlag(values, named.value, args[i], accepts);
        if applied.None? {
          return None;
        }
        values := applied.value;
        i := i + 1;
      } else if assignment.Some? {
        var applied := ApplyGlobalValueFlag(values, assignment.value.flag, assignment.value.value, accepts);
        if applied.None? {
          return None;
        }
        values := applied.value;
      } else if switch.Some? {
        match switch.value
        case Describe => describe := true;
        case Summary => summary := true;
        case Version => version := true;
      } else if arg == SEPARATOR {
        tokens := tokens + args[i..];
        i := |args|;
      } else {
        tokens := tokens + [arg];
      }
    }
    return Some(Bootstrap(values, tokens, describe, summary, version));
  }

  /** What is read at each argument: of an option its value, be it behind it or behind its
      equals sign, and of anything else itself. */
  lemma WhatIsSaid(args: seq<string>, ks: seq<Kind>, i: nat, name: string, value: string)
    requires AreOfKinds(args, ks) && i < |args|
    ensures FromName(name).Some? && args[i] == name && i + 1 < |args| ==>
              SaidAt(args, ks, i) == Sets(FromName(name).value, args[i + 1]) && NextAt(ks, i) == i + 2
    ensures IsAssignment(args[i], name, value) ==>
              SaidAt(args, ks, i) == Sets(FromName(name).value, value) && NextAt(ks, i) == i + 1
    ensures args[i] == "--describe-commands" ==> SaidAt(args, ks, i) == Switches(Describe) && NextAt(ks, i) == i + 1
    ensures args[i] == "--summary" ==> SaidAt(args, ks, i) == Switches(Summary) && NextAt(ks, i) == i + 1
    ensures args[i] == "--version" || args[i] == "-V" ==>
              SaidAt(args, ks, i) == Switches(Version) && NextAt(ks, i) == i + 1
    ensures args[i] == "--" ==> SaidAt(args, ks, i) == Rest(args[i + 1..]) && NextAt(ks, i) == |args|
    ensures GlobalArgSkipCount(args[i]) == 0 && args[i] != "--" ==>
              SaidAt(args, ks, i) == Token(args[i]) && NextAt(ks, i) == i + 1
  {
    KindAt(args, ks, i);
    OptionAt(args, ks, i);
    if IsAssignment(args[i], name, value) {
      SplitAtFirst(name, value);
    }
  }

  /** The parser succeeds exactly when no option it reads lacks its value or has one that is
      refused. */
  lemma {:induction false} ParserSucceedsIff(b: Bootstrap, said: seq<Said>, accepts: (Flag, string) -> bool)
    ensures ToldAll(b, said, accepts).Some? <==>
              forall k :: 0 <= k < |said| ==>
                            && !said[k].Lacks?
                            && (said[k].Sets? && said[k].flag.ServicePath? ==> accepts(ServicePath, said[k].value))
                            && (said[k].Sets? && said[k].flag.Timeout? ==> accepts(Timeout, said[k].value))
    decreases |said|
  {
    if said != [] {
      ParserSucceedsIff(Told(b, said[0]), said[1..], accepts);
      assert forall k :: 0 < k < |said| ==> said[k] == said[1..][k - 1];
    }
  }

  /** The value an option was given last. */
  function LastValue(said: seq<Said>, flag: Flag): Option<string> {
    if said == [] then None
    else
      match LastValue(said[1..], flag)
      case Some(v) => Some(v)
      case None => if said[0].Sets? && said[0].flag == flag then Some(said[0].value) else None
  }

  function ValueOf(values: map<Flag, string>, flag: Flag): Option<string> {
    if flag in values then Some(values[flag]) else None
  }

  /** The words of the command in what is read. */
  function Texts(said: Said): seq<string> {
    match said
    case Token(text) => [text]
    case Rest(texts) => texts
    case _ => []
  }

  function Words(said: seq<Said>): seq<string> {
    if said == [] then [] else Texts(said[0]) + Words(said[1..])
  }

  /** What the parser knows in the end: of each option the value given last, ... */
  lemma {:induction false} ParserLearns(b: Bootstrap, said: seq<Said>, accepts: (Flag, string) -> bool, flag: Flag)
    requires ToldAll(b, said, accepts).Some?
    ensures ValueOf(ToldAll(b, said, accepts).value.values, flag) ==
            if LastValue(said, flag).Some? then LastValue(said, flag) else ValueOf(b.values, flag)
    decreases |said|
  {
    if said != [] {
      ParserLearns(Told(b, said[0]), said[1..], accepts, flag);
    }
  }

  /** ... of each switch whether it was given, ... */
  lemma {:induction false} ParserSwitches(b: Bootstrap, said: seq<Said>, accepts: (Flag, string) -> bool)
    requires ToldAll(b, said, accepts).Some?
    ensures var r := ToldAll(b, said, accepts).value;
            && (r.describe <==> b.describe || Switches(Describe) in said)
            && (r.summary <==> b.summary || Switches(Summary) in said)
            && (r.version <==> b.version || Switches(Version) in said)
    decreases |said|
  {
    if said != [] {
      ParserSwitches(Told(b, said[0]), said[1..], accepts);
      assert said == [said[0]] + said[1..];
    }
  }

  /** ... and the words of the command. */
  lemma {:induction false} ParserTakesWords(b: Bootstrap, said: seq<Said>, accepts: (Flag, string) -> bool)
    requires ToldAll(b, said, accepts).Some?
    ensures ToldAll(b, said, accepts).value.tokens == b.tokens + Words(said)
    decreases |said|
  {
    if said != [] {
      var c := Told(b, said[0]);
      ParserTakesWords(c, said[1..], accepts);
      assert c.tokens == b.tokens + Texts(said[0]);
      assert b.tokens + Texts(said[0]) + Words(said[1..]) == b.tokens + (Texts(said[0]) + Words(said[1..]));
    }
  }

  // ---------------------------------------------------------------- its command tokens

  /** The positions, from `i` on, of the arguments that are neither options nor their values. */
  function TokensFrom(ks: seq<Kind>, i: nat): (r: seq<nat>)
    ensures forall k :: k in r ==> k < |ks|
    decreases |ks| - i
  {
    if i >= |ks| then []
    else if ks[i].Separator? then Upto(i + 1, |ks|)
    else if Skip(ks[i]) == 0 then [i] + TokensFrom(ks, i + 1)
    else TokensFrom(ks, i + Skip(ks[i]))
  }

  function Upto(i: nat, n: nat): (r: seq<nat>)
    ensures forall k :: k in r ==> k < n
    decreases n - i
  {
    if i >= n then [] else [i] + Upto(i + 1, n)
  }

  function At(args: seq<string>, positions: seq<nat>): seq<string>
    requires forall k :: k in positions ==> k < |args|
  {
    if positions == [] then []
    else
      assert positions[0] in positions && forall k :: k in positions[1..] ==> k in positions;
      [args[positions[0]]] + At(args, positions[1..])
  }

  lemma {:induction false} TokensBeginAtTheFirst(ks: seq<Kind>, i: nat)
    ensures TokensFrom(ks, i) != [] <==> FirstToken(ks, i).Some?
    ensures TokensFrom(ks, i) != [] ==> TokensFrom(ks, i)[0] == FirstToken(ks, i).value.index
    decreases |ks| - i
  {
    if i < |ks| && Skip(ks[i]) > 0 {
      TokensBeginAtTheFirst(ks, i + Skip(ks[i]));
    }
  }

  lemma {:induction false} AtUpto(args: seq<string>, i: nat)
    requires i <= |args|
    ensures At(args, Upto(i, |args|)) == args[i..]
    decreases |args| - i
  {
    if i < |args| {
      AtUpto(args, i + 1);
      assert Upto(i, |args|)[1..] == Upto(i + 1, |args|);
    }
  }

  /** The command tokens from `i` on. */
  function TokenTexts(args: seq<string>, ks: seq<Kind>, i: nat): seq<string>
    requires |ks| == |args|
  {
    At(args, TokensFrom(ks, i))
  }

  lemma TokensUnfold(args: seq<string>, ks: seq<Kind>, i: nat)
    requires |ks| == |args| && i < |args|
    ensures ks[i].Separator? ==> TokenTexts(args, ks, i) == args[i + 1..]
    ensures !ks[i].Separator? && Skip(ks[i]) == 0 ==> TokenTexts(args, ks, i) == [args[i]] + TokenTexts(args, ks, i + 1)
    ensures Skip(ks[i]) > 0 ==> TokenTexts(args, ks, i) == TokenTexts(args, ks, i + Skip(ks[i]))
  {
    if ks[i].Separator? {
      AtUpto(args, i + 1);
    } else if Skip(ks[i]) == 0 {
      assert TokensFrom(ks, i)[1..] == TokensFrom(ks, i + 1);
    }
  }

  /** The words read are those arguments, in order. */
  lemma {:induction false} WordsAreTheTokens(args: seq<string>, ks: seq<Kind>, i: nat)
    requires |args| == |ks|
    ensures Words(SaidFrom(args, ks, i)) == TokenTexts(args, ks, i)
    decreases |args| - i
  {
    if i < |args| {
      TokensUnfold(args, ks, i);
      WordsAreTheTokens(args, ks, NextAt(ks, i));
      assert SaidFrom(args, ks, i)[1..] == SaidFrom(args, ks, NextAt(ks, i));
    }
  }

  /** When the parser succeeds, its command tokens are those arguments, in order. */
  lemma ParserTakesTheTokens(args: seq<string>, ks: seq<Kind>, i: nat, b: Bootstrap, accepts: (Flag, string) -> bool)
    requires |args| == |ks| && BootFrom(args, ks, i, b, accepts).Some?
    ensures BootFrom(args, ks, i, b, accepts).value.tokens == b.tokens + TokenTexts(args, ks, i)
  {
    ParserTakesWords(b, SaidFrom(args, ks, i), accepts);
    WordsAreTheTokens(args, ks, i);
  }

  // ---------------------------------------------------------------- they agree

  /** For every argument list: the early look finds the first token or nothing; a parser that
      succeeds has exactly the arguments that are no options or their values as its command
      tokens, from the first token on; and when either finds `appkit` there, the cut is
      what follows that position, which is never an option's value. */
  lemma ScannersAgree(args: seq<string>, ks: seq<Kind>, accepts: (Flag, string) -> bool)
    requires AreOfKinds(args, ks)
    ensures var early, boot, first := PositionFrom(ks, 0), BootFrom(args, ks, 0, NOTHING, accepts), FirstToken(ks, 0);
            && (early.Some? ==> early == first)
            && (boot.Some? ==> boot.value.tokens == TokenTexts(args, ks, 0))
            && (TokensFrom(ks, 0) != [] <==> first.Some?)
            && (first.Some? ==> TokensFrom(ks, 0)[0] == first.value.index && !IsValue(ks, 0, first.value.index))
            && (early.Some? || (boot.Some? && boot.value.tokens != [] && boot.value.tokens[0] == APPKIT) ==>
                  first.Some? && args[first.value.index] == APPKIT && AfterFrom(ks, 0) == first.value.index + 1)
  {
    EarlyLookFindsTheFirstToken(ks, 0);
    TokensBeginAtTheFirst(ks, 0);
    if BootFrom(args, ks, 0, NOTHING, accepts).Some? {
      ParserTakesTheTokens(args, ks, 0, NOTHING, accepts);
    }
    var first := FirstToken(ks, 0);
    if first.Some? {
      FirstTokenIsNoValue(ks, 0);
      KindAt(args, ks, first.value.index);
      if args[first.value.index] == APPKIT {
        CutFollowsFirstToken(ks, 0);
      }
    }
  }
}
