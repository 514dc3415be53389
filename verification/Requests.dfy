/** From the client's call to the server's handler: what each command of the protocol needs, and
    what becomes of it. */
module Requests {
  import opened Text
  import opened Commands
  import opened CommandLine
  import opened Dispatch

  /** A family of commands: its name, what it does, the permission it needs and its number of
      arguments. */
  datatype Family = Family(name: string, handler: Handler, needs: Permissions, args: nat)

  /** The commands that exist for songs, albums, artists and genres. */
  function FamilyAt(f: nat): Family
    requires f < 12
  {
    match f
    case 0 => Family("addtag", AddTag, {Update}, 2)
    case 1 => Family("count", Count, {Update}, 2)
    case 2 => Family("hate", Love, {Update}, 1)
    case 3 => Family("kill", Kill, {Update}, 1)
    case 4 => Family("list", List, {Select}, 1)
    case 5 => Family("listinfo", ListInfo, {Select}, 1)
    case 6 => Family("listtags", ListTags, {Select}, 1)
    case 7 => Family("love", Love, {Update}, 1)
    case 8 => Family("rate", Rate, {Update}, 2)
    case 9 => Family("rate_absolute", RateAbsolute, {Update}, 2)
    case 10 => Family("rmtag", RemoveTag, {Update}, 2)
    case _ => Family("unkill", Kill, {Update}, 1)
  }

  function SuffixAt(k: nat): string
    requires k < 4
  {
    match k
    case 0 => ""
    case 1 => "_album"
    case 2 => "_artist"
    case _ => "_genre"
  }

  function CommandName(f: nat, k: nat): string
    requires f < 12 && k < 4
  {
    FamilyAt(f).name + SuffixAt(k)
  }

  /** Where the family starts in the table. */
  function FirstRow(f: nat): nat {
    if f < 3 then 4 * f else if f < 8 then 4 * f + 1 else 4 * f + 2
  }

  lemma AddTagRows(k: nat)
    requires k < 4
    ensures NameAt(FirstRow(0) + k) == CommandName(0, k)
  {
    assert "addtag" + "" == "addtag";
    assert "addtag" + "_album" == "addtag_album";
    assert "addtag" + "_artist" == "addtag_artist";
    assert "addtag" + "_genre" == "addtag_genre";
  }

  lemma CountRows(k: nat)
    requires k < 4
    ensures NameAt(FirstRow(1) + k) == CommandName(1, k)
  {
    assert "count" + "" == "count";
    assert "count" + "_album" == "count_album";
    assert "count" + "_artist" == "count_artist";
    assert "count" + "_genre" == "count_genre";
  }

  lemma HateRows(k: nat)
    requires k < 4
    ensures NameAt(FirstRow(2) + k) == CommandName(2, k)
  {
    assert "hate" + "" == "hate";
    assert "hate" + "_album" == "hate_album";
    assert "hate" + "_artist" == "hate_artist";
    assert "hate" + "_genre" == "hate_genre";
  }

  lemma KillRows(k: nat)
    requires k < 4
    ensures NameAt(FirstRow(3) + k) == CommandName(3, k)
  {
    assert "kill" + "" == "kill";
    assert "kill" + "_album" == "kill_album";
    assert "kill" + "_artist" == "kill_artist";
    assert "kill" + "_genre" == "kill_genre";
  }

  lemma ListRows(k: nat)
    requires k < 4
    ensures NameAt(FirstRow(4) + k) == CommandName(4, k)
  {
    assert "list" + "" == "list";
    assert "list" + "_album" == "list_album";
    assert "list" + "_artist" == "list_artist";
    assert "list" + "_genre" == "list_genre";
  }

  lemma ListInfoRows(k: nat)
    requires k < 4
    ensures NameAt(FirstRow(5) + k) == CommandName(5, k)
  {
    assert "listinfo" + "" == "listinfo";
    assert "listinfo" + "_album" == "listinfo_album";
    assert "listinfo" + "_artist" == "listinfo_artist";
    assert "listinfo" + "_genre" == "listinfo_genre";
  }

  lemma ListTagsRows(k: nat)
    requires k < 4
    ensures NameAt(FirstRow(6) + k) == CommandName(6, k)
  {
    assert "listtags" + "" == "listtags";
    assert "listtags" + "_album" == "listtags_album";
    assert "listtags" + "_artist" == "listtags_artist";
    assert "listtags" + "_genre" == "listtags_genre";
  }

  lemma LoveRows(k: nat)
    requires k < 4
    ensures NameAt(FirstRow(7) + k) == CommandName(7, k)
  {
    assert "love" + "" == "love";
    assert "love" + "_album" == "love_album";
    assert "love" + "_artist" == "love_artist";
    assert "love" + "_genre" == "love_genre";
  }

  lemma RateRows(k: nat)
    requires k < 4
    ensures NameAt(FirstRow(8) + k) == CommandName(8, k)
  {
    assert "rate" + "" == "rate";
    assert "rate" + "_album" == "rate_album";
    assert "rate" + "_artist" == "rate_artist";
    assert "rate" + "_genre" == "rate_genre";
  }

  lemma RateAbsoluteRows(k: nat)
    requires k < 4
    ensures NameAt(FirstRow(9) + k) == CommandName(9, k)
  {
    assert "rate_absolute" + "" == "rate_absolute";
    assert "rate_absolute" + "_album" == "rate_absolute_album";
    assert "rate_absolute" + "_artist" == "rate_absolute_artist";
    assert "rate_absolute" + "_genre" == "rate_absolute_genre";
  }

  lemma RemoveTagRows(k: nat)
    requires k < 4
    ensures NameAt(FirstRow(10) + k) == CommandName(10, k)
  {
    assert "rmtag" + "" == "rmtag";
    assert "rmtag" + "_album" == "rmtag_album";
    assert "rmtag" + "_artist" == "rmtag_artist";
    assert "rmtag" + "_genre" == "rmtag_genre";
  }

  lemma UnkillRows(k: nat)
    requires k < 4
    ensures NameAt(FirstRow(11) + k) == CommandName(11, k)
  {
    assert "unkill" + "" == "unkill";
    assert "unkill" + "_album" == "unkill_album";
    assert "unkill" + "_artist" == "unkill_artist";
    assert "unkill" + "_genre" == "unkill_genre";
  }

  lemma NamesSpelled(f: nat, k: nat)
    requires f < 12 && k < 4
    ensures FirstRow(f) + k < ROWS
    ensures NameAt(FirstRow(f) + k) == CommandName(f, k)
  {
    hide NameAt, CommandName;
    match f
    case 0 => AddTagRows(k);
    case 1 => CountRows(k);
    case 2 => HateRows(k);
    case 3 => KillRows(k);
    case 4 => ListRows(k);
    case 5 => ListInfoRows(k);
    case 6 => ListTagsRows(k);
    case 7 => LoveRows(k);
    case 8 => RateRows(k);
    case 9 => RateAbsoluteRows(k);
    case 10 => RemoveTagRows(k);
    case _ => UnkillRows(k);
  }

  lemma RowColumns(f: nat, k: nat)
    requires f < 12 && k < 4
    ensures var i := FirstRow(f) + k;
            && PermissionAt(i) == FamilyAt(f).needs
            && HandlerAt(i) == FamilyAt(f).handler
            && DemandedArgc(HandlerAt(i)) == FamilyAt(f).args + 1
            && (Reachable(i) <==> !(f == 8 && k > 0))
  {
    hide NameAt;
  }

  // ------------------------------------------------------------------- dispatch

  /** What the checks make of a command of a family: the three misplaced names are unknown, then
      the permission counts, then the number of arguments. */
  lemma FamilyChecked(f: nat, k: nat, perm: Permissions, args: seq<string>)
    requires f < 12 && k < 4
    ensures Checked(perm, [CommandName(f, k)] + args) ==
              if f == 8 && k > 0 then Refused(4)
              else if !(FamilyAt(f).needs <= perm) then Refused(3)
              else if |args| != FamilyAt(f).args then Refused(1)
              else Invoked(FirstRow(f) + k)
  {
    hide NameAt, Less, FamilyAt, SuffixAt, HandlerAt, PermissionAt, FirstRow;
    var i := FirstRow(f) + k;
    var argv := [CommandName(f, k)] + args;
    NamesSpelled(f, k);
    RowColumns(f, k);
    RowChecked(i, perm, argv);
  }

  lemma RowChecked(i: nat, perm: Permissions, argv: seq<string>)
    requires i < ROWS && argv != [] && argv[0] == NameAt(i)
    ensures Checked(perm, argv) ==
              if !Reachable(i) then Refused(4)
              else if !(PermissionAt(i) <= perm) then Refused(3)
              else if |argv| != DemandedArgc(HandlerAt(i)) then Refused(1)
              else Invoked(i)
  {
    hide NameAt, Less;
    LookupExact(argv[0]);
    assert Names()[i] == argv[0];
    assert DemandedArgc(HandlerAt(i)) == ArgumentsAt(i) + 1;
    assert PermissionAt(i) <= perm <==> PermissionAt(i) == perm * PermissionAt(i);
    if !Reachable(i) {
      forall j | 0 <= j < ROWS && Names()[j] == argv[0]
        ensures j == i
      {
        NamesDistinct(i, j);
      }
    }
  }

  /** The two commands that stand alone. */
  lemma SingleChecked(perm: Permissions, args: seq<string>)
    ensures Checked(perm, ["karma"] + args) ==
              if Update !in perm then Refused(3) else if |args| != 2 then Refused(1) else Invoked(12)
    ensures Checked(perm, ["password"] + args) == if |args| != 1 then Refused(1) else Invoked(PASSWORD_ROW)
    ensures HandlerAt(12) == Handler.Karma && HandlerAt(PASSWORD_ROW) == Password
  {
    hide Less, Checked;
    RowChecked(12, perm, ["karma"] + args);
    RowChecked(PASSWORD_ROW, perm, ["password"] + args);
  }

  /** Every other name is unknown. */
  lemma OthersUnknown(perm: Permissions, argv: seq<string>)
    requires argv != []
    requires argv[0] != "karma" && argv[0] != "password"
    requires forall f, k :: 0 <= f < 12 && 0 <= k < 4 ==> argv[0] != CommandName(f, k)
    ensures Checked(perm, argv) == Refused(4)
  {
    hide Less, CommandName, FamilyAt;
    LookupExact(argv[0]);
    forall i | 0 <= i < ROWS
      ensures Names()[i] != argv[0]
    {
      RowInFamily(i);
    }
  }

  lemma RowInFamily(i: nat)
    requires i < ROWS
    ensures NameAt(i) == "karma" || NameAt(i) == "password"
            || exists f, k :: 0 <= f < 12 && 0 <= k < 4 && NameAt(i) == CommandName(f, k)
  {
    if i != 12 && i != 33 {
      hide NameAt, CommandName;
      var j := if i < 12 then i else if i < 33 then i - 1 else i - 2;
      var f, k := j / 4, j % 4;
      assert FirstRow(f) + k == i;
      NamesSpelled(f, k);
    }
  }

  // --------------------------------------------------------------- client to handler

  lemma FamilyIsName(f: nat)
    requires f < 12
    ensures ValidName(FamilyAt(f).name)
  {
  }

  lemma CommandIsName(f: nat, k: nat)
    requires f < 12 && k < 4
    ensures ValidName(CommandName(f, k))
  {
    hide FamilyAt;
    FamilyIsName(f);
    SuffixIsName(k);
    var a, b := FamilyAt(f).name, SuffixAt(k);
    assert forall i :: 0 <= i < |a| ==> (a + b)[i] == a[i];
    assert forall i :: 0 <= i < |b| ==> (a + b)[|a| + i] == b[i];
  }

  lemma SuffixIsName(k: nat)
    requires k < 4
    ensures forall i :: 0 <= i < |SuffixAt(k)| ==> Letter(SuffixAt(k)[i]) || SuffixAt(k)[i] == '_'
  {
  }

  /** What the server does with a command that the client sends. */
  function Sent(name: string, args: seq<string>): Input {
    Input(Received(Printed(name, args) + [LF]), None, [], None)
  }

  /** From the client's argument list to the handler: a command of the protocol reaches its
      handler exactly when it is not one of the three misplaced names, the client may, it has
      its number of arguments and none of them contains a newline. */
  lemma CommandReachesHandler(f: nat, k: nat, args: seq<string>, c: Config, perm: Permissions)
    requires f < 12 && k < 4
    ensures var turn := Execute(c, perm, Sent(CommandName(f, k), args));
            var family := FamilyAt(f);
            && (turn.outcome == Invoked(FirstRow(f) + k) <==>
                  !(f == 8 && k > 0) && family.needs <= perm && |args| == family.args && LineFree(args))
            && HandlerAt(FirstRow(f) + k) == family.handler
            && (|args| <= 14 && LineFree(args) ==>
                  ReadCommand(Received(Printed(CommandName(f, k), args) + [LF])) == Argv([CommandName(f, k)] + args))
  {
    hide FamilyAt, SuffixAt, CommandName, HandlerAt, PermissionAt, FirstRow, ReadCommand, NameAt, Checked;
    var name := CommandName(f, k);
    CommandIsName(f, k);
    CommandRoundTrip(name, args);
    RowColumns(f, k);
    FewArguments(f);
    if |args| <= 14 && LineFree(args) {
      FamilyChecked(f, k, perm, args);
    } else {
      NotInvoked(f, k, args, c, perm);
    }
  }

  lemma FewArguments(f: nat)
    requires f < 12
    ensures FamilyAt(f).args <= 2
  {
  }

  lemma NotInvoked(f: nat, k: nat, args: seq<string>, c: Config, perm: Permissions)
    requires f < 12 && k < 4 && !(|args| <= 14 && LineFree(args))
    ensures Execute(c, perm, Sent(CommandName(f, k), args)).outcome.Refused?
  {
    hide FamilyAt, SuffixAt, CommandName, ReadCommand, NameAt, Checked;
    var name := CommandName(f, k);
    CommandIsName(f, k);
    if LineFree(args) {
      PrintedWhole(name, args);
      ReadsWhole(name, args);
    } else {
      NewlineRejected(name, args);
    }
  }

  lemma PrintedWhole(name: string, args: seq<string>)
    requires ValidName(name) && LineFree(args)
    ensures Received(Printed(name, args) + [LF]) == Printed(name, args)
  {
    hide PrintedArguments;
    var line := Printed(name, args);
    NameLineFree(name);
    PrintedLineFree(args);
    IndexOfUnique(line + [LF], LF, |line|);
  }

  lemma SingleIsName()
    ensures ValidName("karma") && ValidName("password")
  {
  }

  /** Every command of the table arrives with its arguments. */
  lemma EveryCommandArrives(i: nat, args: seq<string>)
    requires i < ROWS && |args| <= 14 && LineFree(args)
    ensures ReadCommand(Received(Printed(NameAt(i), args) + [LF])) == Argv([NameAt(i)] + args)
  {
    hide NameAt, CommandName, ReadCommand, ValidName;
    RowInFamily(i);
    if NameAt(i) == "karma" || NameAt(i) == "password" {
      SingleIsName();
    } else {
      var f, k :| 0 <= f < 12 && 0 <= k < 4 && NameAt(i) == CommandName(f, k);
      CommandIsName(f, k);
    }
    CommandRoundTrip(NameAt(i), args);
  }

  /** A password that is sent raises the client's permissions by what the configuration gives
      it; one that gives nothing is refused. */
  lemma PasswordIsHeard(pw: string, c: Config, perm: Permissions)
    requires LF !in pw
    ensures var turn := Execute(c, perm, Sent("password", [pw]));
            && turn.outcome == Invoked(PASSWORD_ROW)
            && turn.perm == (if pw in c.passwords then perm + c.passwords[pw] else perm)
            && turn.errors == (if pw in c.passwords && c.passwords[pw] != {} then [] else [2])
  {
    hide ReadCommand, Checked, ValidName, Printed;
    SingleIsName();
    CommandRoundTrip("password", [pw]);
    SingleChecked(perm, [pw]);
    assert ["password"] + [pw] == ["password", pw];
  }
}
