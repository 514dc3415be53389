/** Permissions: the configuration of stats-file.c, the checks before a handler runs, and what
    a client session can reach. */
module Dispatch {
  import opened Text
  import opened Commands
  import opened CommandLine
  import opened Tokenizer

  datatype Permission = Select | Update

  type Permissions = set<Permission>

  const ALL: Permissions := {Select, Update}

  // -------------------------------------------------------------- configuration

  datatype Config = Config(defaults: Permissions, passwords: map<string, Permissions>)

  function AddDefault(p: Permissions, value: string): Permissions {
    if value == "select" then p + {Select}
    else if value == "update" then p + {Update}
    else if value == "none" then {}
    else p
  }

  function Defaults(values: seq<string>): Permissions {
    if values == [] then {} else AddDefault(Defaults(values[..|values| - 1]), values[|values| - 1])
  }

  function PermissionBits(word: string): Option<Permissions> {
    if word == "select" then Some({Select})
    else if word == "update" then Some({Update})
    else if word == "all" then Some(ALL)
    else None
  }

  /** A `password@permission` entry: its permission stops being a default. */
  function AddPassword(c: Config, value: string): Config {
    var i := IndexOf(value, '@');
    if i == |value| then c
    else
      match PermissionBits(value[i + 1..])
      case None => c
      case Some(bits) => Config(c.defaults - bits, c.passwords[value[..i] := bits])
  }

  function AddPasswords(c: Config, values: seq<string>): Config {
    if values == [] then c else AddPassword(AddPasswords(c, values[..|values| - 1]), values[|values| - 1])
  }

  /** The permission part of `file_load`; a list that is not configured is None. */
  function Load(defaults: Option<seq<string>>, passwords: Option<seq<string>>): Config {
    var d := if defaults.Some? then Defaults(defaults.value) else ALL;
    AddPasswords(Config(d, map[]), passwords.GetOr([]))
  }

  method LoadPermissions(defaults: Option<seq<string>>, passwords: Option<seq<string>>) returns (c: Config)
    ensures c == Load(defaults, passwords)
  {
    var p: Permissions := {};
    if defaults.Some? {
      for i := 0 to |defaults.value|
        invariant p == Defaults(defaults.value[..i])
      {
        assert defaults.value[..i + 1][..i] == defaults.value[..i];
        p := AddDefault(p, defaults.value[i]);
      }
      assert defaults.value[..|defaults.value|] == defaults.value;
    } else {
      p := ALL;
    }
    c := Config(p, map[]);
    if passwords.Some? {
      for i := 0 to |passwords.value|
        invariant c == AddPasswords(Config(p, map[]), passwords.value[..i])
      {
        assert passwords.value[..i + 1][..i] == passwords.value[..i];
        c := AddPassword(c, passwords.value[i]);
      }
      assert passwords.value[..|passwords.value|] == passwords.value;
    }
  }

  lemma {:induction false} PasswordsGuard(c: Config, values: seq<string>)
    requires forall pw :: pw in c.passwords ==> c.passwords[pw] !! c.defaults && c.passwords[pw] != {}
    ensures var d := AddPasswords(c, values);
            && d.defaults <= c.defaults
            && forall pw :: pw in d.passwords ==> d.passwords[pw] !! d.defaults && d.passwords[pw] != {}
  {
    if values != [] {
      PasswordsGuard(c, values[..|values| - 1]);
    }
  }

  /** However the two lists are written, no client starts with a permission that a configured
      password grants. */
  lemma DefaultsAreUnguarded(defaults: Option<seq<string>>, passwords: Option<seq<string>>, pw: string)
    requires pw in Load(defaults, passwords).passwords
    ensures var c := Load(defaults, passwords); c.passwords[pw] !! c.defaults && c.passwords[pw] != {}
  {
    var d := if defaults.Some? then Defaults(defaults.value) else ALL;
    PasswordsGuard(Config(d, map[]), passwords.GetOr([]));
  }

  /** The word is listed and no "none" follows it. */
  predicate StaysListed(values: seq<string>, word: string) {
    exists i :: 0 <= i < |values| && values[i] == word && "none" !in values[i + 1..]
  }

  lemma {:induction false} ListedLast(values: seq<string>, word: string)
    requires values != [] && word != "none"
    ensures var last := values[|values| - 1];
            StaysListed(values, word) <==>
            last != "none" && (last == word || StaysListed(values[..|values| - 1], word))
  {
    var n := |values| - 1;
    var before, last := values[..n], values[n];
    if StaysListed(values, word) {
      var i :| 0 <= i < |values| && values[i] == word && "none" !in values[i + 1..];
      if i < n {
        assert values[i + 1..][n - i - 1] == last;
        assert before[i] == word && before[i + 1..] == values[i + 1..][..n - i - 1];
      }
    }
    if last == word {
      assert values[n + 1..] == [];
    } else if last != "none" && StaysListed(before, word) {
      var i :| 0 <= i < |before| && before[i] == word && "none" !in before[i + 1..];
      assert values[i + 1..] == before[i + 1..] + [last];
    }
  }

  /** A permission is a default when its word is listed and not revoked by a later "none". */
  lemma {:induction false} DefaultsExactly(values: seq<string>)
    ensures Select in Defaults(values) <==> StaysListed(values, "select")
    ensures Update in Defaults(values) <==> StaysListed(values, "update")
  {
    if values != [] {
      DefaultsExactly(values[..|values| - 1]);
      ListedLast(values, "select");
      ListedLast(values, "update");
    }
  }

  /** The permission word of a `password@permission` entry, when it is a valid one. */
  function WordOf(value: string): Option<string> {
    var i := IndexOf(value, '@');
    if i < |value| && value[i + 1..] in ["select", "update", "all"] then Some(value[i + 1..]) else None
  }

  /** The word of the last valid entry for a password. */
  function WordFor(values: seq<string>, pw: string): Option<string> {
    if values == [] then None
    else
      var last := values[|values| - 1];
      if WordOf(last).Some? && last[..IndexOf(last, '@')] == pw then WordOf(last)
      else WordFor(values[..|values| - 1], pw)
  }

  /** What the configuration gives: a password has the permissions of its last valid entry, and
      a default is left when no valid entry grants it. */
  lemma {:induction false} PasswordsExactly(c: Config, values: seq<string>, pw: string)
    requires c.passwords == map[]
    ensures var d := AddPasswords(c, values);
            && (pw in d.passwords <==> WordFor(values, pw).Some?)
            && (pw in d.passwords ==>
                  && (Select in d.passwords[pw] <==> WordFor(values, pw).value in ["select", "all"])
                  && (Update in d.passwords[pw] <==> WordFor(values, pw).value in ["update", "all"]))
            && (Select in d.defaults <==>
                  Select in c.defaults && forall v :: v in values ==> WordOf(v) !in [Some("select"), Some("all")])
            && (Update in d.defaults <==>
                  Update in c.defaults && forall v :: v in values ==> WordOf(v) !in [Some("update"), Some("all")])
  {
    if values != [] {
      var n := |values| - 1;
      PasswordsExactly(c, values[..n], pw);
      assert forall v :: v in values <==> v in values[..n] || v == values[n];
      EntryExactly(AddPasswords(c, values[..n]), values[n]);
    }
  }

  /** From the two lists to the configuration: without a list of defaults both permissions are
      defaults, and each is left unless a valid password entry grants it. */
  lemma ConfigurationExactly(defaults: Option<seq<string>>, passwords: Option<seq<string>>, pw: string)
    ensures var c, entries := Load(defaults, passwords), passwords.GetOr([]);
            && (pw in c.passwords <==> WordFor(entries, pw).Some?)
            && (pw in c.passwords ==>
                  && (Select in c.passwords[pw] <==> WordFor(entries, pw).value in ["select", "all"])
                  && (Update in c.passwords[pw] <==> WordFor(entries, pw).value in ["update", "all"]))
            && (Select in c.defaults <==>
                  && (defaults.None? || StaysListed(defaults.value, "select"))
                  && forall v :: v in entries ==> WordOf(v) !in [Some("select"), Some("all")])
            && (Update in c.defaults <==>
                  && (defaults.None? || StaysListed(defaults.value, "update"))
                  && forall v :: v in entries ==> WordOf(v) !in [Some("update"), Some("all")])
  {
    hide WordOf, WordFor, StaysListed, AddPasswords, Defaults;
    var d := if defaults.Some? then Defaults(defaults.value) else {Select, Update};
    if defaults.Some? {
      DefaultsExactly(defaults.value);
    }
    PasswordsExactly(Config(d, map[]), passwords.GetOr([]), pw);
  }

  lemma EntryExactly(c: Config, value: string)
    ensures var d := AddPassword(c, value);
            var word := WordOf(value);
            && (word.None? ==> d == c)
            && (word.Some? ==>
                  var pw := value[..IndexOf(value, '@')];
                  && d.passwords.Keys == c.passwords.Keys + {pw}
                  && (forall x :: x in c.passwords && x != pw ==> d.passwords[x] == c.passwords[x])
                  && (Select in d.passwords[pw] <==> word.value in ["select", "all"])
                  && (Update in d.passwords[pw] <==> word.value in ["update", "all"])
                  && (Select in d.defaults <==> Select in c.defaults && word.value !in ["select", "all"])
                  && (Update in d.defaults <==> Update in c.defaults && word.value !in ["update", "all"]))
  {
    hide PermissionBits;
    var i := IndexOf(value, '@');
    if i < |value| {
      BitsExactly(value[i + 1..]);
    }
  }

  lemma BitsExactly(word: string)
    ensures var bits := PermissionBits(word);
            && (bits.Some? <==> word in ["select", "update", "all"])
            && (bits.Some? ==>
                  && (Select in bits.value <==> word in ["select", "all"])
                  && (Update in bits.value <==> word in ["update", "all"]))
  {
  }

  // ------------------------------------------------------------------- dispatch

  datatype Handler =
    | AddTag | Count | Love | Karma | Kill | List | ListInfo | ListTags | Password | Rate | RateAbsolute | RemoveTag

  /** The handler family of each row of the table. */
  function HandlerAt(i: nat): Handler {
    if i < 4 then AddTag else if i < 8 then Count else if i < 12 then Love else if i < 13 then Karma
    else if i < 17 then Kill else if i < 21 then List else if i < 25 then ListInfo else if i < 29 then ListTags
    else if i < 33 then Love else if i < 34 then Password else if i < 38 then Rate
    else if i < 42 then RateAbsolute else if i < 46 then RemoveTag else Kill
  }

  /** The argc a handler asserts; `handle_password` asserts none but reads argv[1]. */
  function DemandedArgc(h: Handler): nat {
    match h
    case AddTag | Count | Karma | Rate | RateAbsolute | RemoveTag => 3
    case Love | Kill | List | ListInfo | ListTags | Password => 2
  }

  /** The permission column of the table. */
  function PermissionAt(i: nat): Permissions {
    if 17 <= i < 29 then {Select} else if i == 33 then {} else {Update}
  }

  /** The min and max columns, which agree in every row. */
  function ArgumentsAt(i: nat): int {
    if i < 8 || i == 12 || 34 <= i < 46 then 2 else 1
  }

  const ACK_ARG: nat := 1
  const ACK_PASSWORD: nat := 2
  const ACK_PERMISSION: nat := 3
  const ACK_UNKNOWN: nat := 4

  datatype Outcome = Refused(ack: nat) | Invoked(row: nat)

  /** `command_check_request`: the argument count rules for a row's min and max. */
  predicate CountAccepted(rowMin: int, rowMax: int, argc: int) {
    var min, max := rowMin + 1, rowMax + 1;
    if min == 0 then true
    else if min == max && max != argc then false
    else if argc < min then false
    else !(argc > max && max != 0)
  }

  /** The columns count the arguments behind the name; -1 in the first means any number, in the
      second no upper limit. */
  lemma CountExactly(rowMin: int, rowMax: int, argc: int)
    requires rowMin == -1 || rowMax == -1 || rowMin <= rowMax
    ensures CountAccepted(rowMin, rowMax, argc) <==>
            rowMin == -1 || (argc - 1 >= rowMin && (rowMax == -1 || argc - 1 <= rowMax))
  {
  }

  /** `command_checked_lookup`. */
  function Checked(perm: Permissions, argv: seq<string>): Outcome
    requires argv != []
  {
    match Search(Names(), argv[0], 0, ROWS)
    case None => Refused(ACK_UNKNOWN)
    case Some(i) =>
      if PermissionAt(i) != perm * PermissionAt(i) then Refused(ACK_PERMISSION)
      else if !CountAccepted(ArgumentsAt(i), ArgumentsAt(i), |argv|) then Refused(ACK_ARG)
      else Invoked(i)
  }

  /** A handler runs for exactly the reachable row that argv names, with every bit the row needs
      and with the argument count its assertion demands. */
  lemma InvokedExactly(perm: Permissions, argv: seq<string>, i: nat)
    requires argv != []
    ensures Checked(perm, argv) == Invoked(i)
            <==> Reachable(i) && Names()[i] == argv[0] && PermissionAt(i) <= perm
                 && |argv| == DemandedArgc(HandlerAt(i))
  {
    hide NameAt, Less;
    LookupExact(argv[0]);
    assert i < ROWS ==> DemandedArgc(HandlerAt(i)) == ArgumentsAt(i) + 1;
    assert PermissionAt(i) <= perm <==> PermissionAt(i) == perm * PermissionAt(i);
  }

  // -------------------------------------------------------------------- sessions

  const PASSWORD_ROW: nat := 33

  /** A line of a client, and what the database has to do with it: the error code should it
      refuse the statement authorizer that is set before a handler is looked up, those that a
      handler other than `password` answers with, and the one should it refuse to remove the
      authorizer again. */
  datatype Input = Input(line: string, failure: Option<nat>, answer: seq<nat>, removal: Option<nat>)

  /** What becomes of a line, the codes of all error lines the client is sent, and the
      permissions afterwards. */
  datatype Turn = Turn(outcome: Outcome, errors: seq<nat>, perm: Permissions)

  function Execute(c: Config, perm: Permissions, x: Input): Turn {
    match ReadCommand(x.line)
    case NoCommand => Refusal(ACK_UNKNOWN, perm)
    case BadCommand(_) => Refusal(ACK_UNKNOWN, perm)
    case TooManyArguments => Refusal(ACK_ARG, perm)
    case BadArgument(_) => Refusal(ACK_ARG, perm)
    case Argv(argv) =>
      if x.failure.Some? then Refusal(x.failure.value, perm) else
      var outcome := Checked(perm, argv);
      Turn(outcome, Answer(c, outcome, argv, x) + Removal(x),
           if outcome == Invoked(PASSWORD_ROW) then perm + PasswordBits(c, argv) else perm)
  }

  function Refusal(ack: nat, perm: Permissions): Turn {
    Turn(Refused(ack), [ack], perm)
  }

  /** `handle_password` refuses a password that grants nothing, listed or not. */
  function Answer(c: Config, outcome: Outcome, argv: seq<string>, x: Input): seq<nat> {
    match outcome
    case Refused(ack) => [ack]
    case Invoked(row) =>
      if row != PASSWORD_ROW then x.answer
      else if PasswordBits(c, argv) == {} then [ACK_PASSWORD]
      else []
  }

  function Removal(x: Input): seq<nat> {
    if x.removal.Some? then [x.removal.value] else []
  }

  /** What `handle_password` adds. */
  function PasswordBits(c: Config, argv: seq<string>): Permissions {
    if |argv| > 1 && argv[1] in c.passwords then c.passwords[argv[1]] else {}
  }

  /** Which error lines a client is sent: one for a line that is no command or has bad arguments;
      the database's own when the authorizer cannot be set, and then nothing else happens; those
      of the handler; and at the end one more when the authorizer cannot be removed. */
  lemma ErrorsExactly(c: Config, perm: Permissions, x: Input)
    ensures var turn, reading := Execute(c, perm, x), ReadCommand(x.line);
            && (reading.NoCommand? || reading.BadCommand? ==> turn == Turn(Refused(4), [4], perm))
            && (reading.TooManyArguments? || reading.BadArgument? ==> turn == Turn(Refused(1), [1], perm))
            && (reading.Argv? && x.failure.Some? ==>
                  turn == Turn(Refused(x.failure.value), [x.failure.value], perm))
            && (reading.Argv? && x.failure.None? ==>
                  var quiet := Execute(c, perm, x.(removal := None));
                  && turn.outcome == quiet.outcome && turn.perm == quiet.perm
                  && turn.errors == quiet.errors + (if x.removal.Some? then [x.removal.value] else [])
                  && (turn.outcome.Refused? ==> quiet.errors == [turn.outcome.ack])
                  && (turn.outcome.Invoked? && turn.outcome.row != PASSWORD_ROW ==> quiet.errors == x.answer))
  {
    hide ReadCommand, Checked;
  }

  /** One connected client. */
  class Client {
    const config: Config
    var perm: Permissions

    /** `event_incoming`: a client starts with the default permissions. */
    constructor (config: Config)
      ensures this.config == config && perm == config.defaults
    {
      this.config := config;
      perm := config.defaults;
    }

    /** The characters from `p` up to the NUL, as `strcmp` and the hash table see them. */
    method StringAt(buf: array<char>, p: nat, ghost word: string) returns (s: string)
      requires HoldsIn(buf[..], p, word)
      ensures s == word
    {
      s := [];
      HoldsInAt(buf[..], p, word, 0);
      while buf[p + |s|] != NUL
        invariant |s| <= |word| && s == word[..|s|]
        invariant buf[p + |s|] == if |s| < |word| then word[|s|] else NUL
        decreases |word| - |s|
      {
        HoldsInAt(buf[..], p, word, |s| + 1);
        s := s + [buf[p + |s|]];
      }
    }

    method StringsAt(buf: array<char>, at: seq<nat>, ghost words: seq<string>, ghost limit: nat)
        returns (strings: seq<string>)
      requires WordsIn(buf[..], at, words, limit)
      ensures strings == words
    {
      strings := [];
      for k := 0 to |at|
        invariant strings == words[..k]
      {
        assert HoldsIn(buf[..], at[k], words[k]);
        var word := StringAt(buf, at[k], words[k]);
        strings := strings + [word];
      }
    }

    /** `command_process` on a line in its buffer. */
    /** `command_process` on a line in its buffer. */
    method CommandProcess(buf: array<char>, failure: Option<nat>, answer: seq<nat>, removal: Option<nat>,
                          ghost line: string)
        returns (outcome: Outcome, errors: seq<nat>)
      requires HoldsAt(buf, 0, line)
      modifies this`perm, buf
      ensures Turn(outcome, errors, perm) == Execute(config, old(perm), Input(line, failure, answer, removal))
    {
      hide Checked, ReadCommand, NameAt;
      var cut := CutCommand(buf, line);
      match cut
      case NothingGiven => outcome, errors := Refused(ACK_UNKNOWN), [ACK_UNKNOWN];
      case NameProblem(_) => outcome, errors := Refused(ACK_UNKNOWN), [ACK_UNKNOWN];
      case Overfull => outcome, errors := Refused(ACK_ARG), [ACK_ARG];
      case ArgumentProblem(_) => outcome, errors := Refused(ACK_ARG), [ACK_ARG];
      case Words(at) =>
        var argv := StringsAt(buf, at, ReadCommand(line).argv, buf.Length);
        ArgvNotEmpty(line);
        if failure.Some? {
          return Refused(failure.value), [failure.value];
        }
        outcome := Checked(perm, argv);
        match outcome {
          case Refused(ack) => errors := [ack];
          case Invoked(row) =>
            errors := answer;
            if row == PASSWORD_ROW {
              errors := if PasswordBits(config, argv) == {} then [ACK_PASSWORD] else [];
              perm := perm + PasswordBits(config, argv);
            }
        }
        if removal.Some? {
          errors := errors + [removal.value];
        }
    }
  }

  lemma HoldsInAt(bytes: seq<char>, p: nat, s: string, k: nat)
    requires HoldsIn(bytes, p, s) && k <= |s|
    ensures bytes[p + k] == if k < |s| then s[k] else NUL
  {
    if k < |s| {
      assert bytes[p..p + |s|][k] == bytes[p + k];
    }
  }

  lemma ArgvNotEmpty(line: string)
    requires ReadCommand(line).Argv?
    ensures ReadCommand(line).argv != []
  {
  }

  function SessionPermissions(c: Config, inputs: seq<Input>): Permissions {
    if inputs == [] then c.defaults
    else Execute(c, SessionPermissions(c, inputs[..|inputs| - 1]), inputs[|inputs| - 1]).perm
  }

  /** The bits of the password a line submits, unless the database fails. */
  function LineGrants(c: Config, x: Input): Permissions {
    match ReadCommand(x.line)
    case Argv(argv) =>
      if |argv| == 2 && argv[0] == "password" && x.failure.None? then PasswordBits(c, argv) else {}
    case _ => {}
  }

  function Grants(c: Config, inputs: seq<Input>): Permissions {
    if inputs == [] then {} else Grants(c, inputs[..|inputs| - 1]) + LineGrants(c, inputs[|inputs| - 1])
  }

  /** `password` needs no permission. */
  lemma PasswordRow(perm: Permissions, argv: seq<string>)
    requires argv != []
    ensures Checked(perm, argv) == Invoked(PASSWORD_ROW) <==> argv[0] == "password" && |argv| == 2
  {
    hide Less, Checked;
    InvokedExactly(perm, argv, PASSWORD_ROW);
    assert Names()[PASSWORD_ROW] == "password";
  }

  lemma {:induction false} LineEffect(c: Config, perm: Permissions, x: Input)
    ensures Execute(c, perm, x).perm == perm + LineGrants(c, x)
  {
    hide Less, PasswordBits, Checked, DemandedArgc;
    match ReadCommand(x.line)
    case Argv(argv) =>
      ArgvNotEmpty(x.line);
      PasswordRow(perm, argv);
    case _ =>
  }

  /** Over a whole session a client's permissions are the defaults and the bits of the listed
      passwords it sent; they never shrink and nothing else adds to them. */
  lemma {:induction false} SessionExact(c: Config, inputs: seq<Input>)
    ensures SessionPermissions(c, inputs) == c.defaults + Grants(c, inputs)
  {
    if inputs != [] {
      var n := |inputs| - 1;
      SessionExact(c, inputs[..n]);
      LineEffect(c, SessionPermissions(c, inputs[..n]), inputs[n]);
    }
  }

  /** From configuration to handler: while a client has not sent a password that grants `p`, no
      handler of a row that needs `p` runs for it, if any configured password grants `p`. */
  lemma GuardedUntilPassword(defaults: Option<seq<string>>, passwords: Option<seq<string>>,
                             inputs: seq<Input>, x: Input, p: Permission, pw: string, i: nat)
    requires var c := Load(defaults, passwords);
             && pw in c.passwords && p in c.passwords[pw]
             && p !in Grants(c, inputs)
             && Execute(c, SessionPermissions(c, inputs), x).outcome == Invoked(i)
    ensures p !in PermissionAt(i)
  {
    hide NameAt, Less, Load, ReadCommand;
    var c := Load(defaults, passwords);
    DefaultsAreUnguarded(defaults, passwords, pw);
    SessionExact(c, inputs);
    ArgvNotEmpty(x.line);
    InvokedExactly(SessionPermissions(c, inputs), ReadCommand(x.line).argv, i);
  }
}
