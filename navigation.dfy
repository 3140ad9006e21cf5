/**
 * The navigation widget: a list box that shows the entries of one page of
 * a fixed structure `{page id: {entry text: statement}}` and, when an
 * entry is selected, runs its statement. A statement is
 * `command@p1, p2, ...`; `goto@id` opens another page (and records it
 * in the page history the back button walks), `set_var@type, value`
 * stores a converted value in the widget's variable.
 *
 * Exceptions the widget raises out of a Tk callback are returned as
 * errors; whatever the callback changed before raising stays changed.
 */
module Navigation {
  import opened Wrappers
  import opened PyText

  /** An argument of `goto` given by a caller: statement parameters are always strings. */
  datatype Arg = AInt(i: int) | AStr(s: string) | ABool(b: bool)

  /** The values `set_var` can store. */
  datatype Value =
    | VStr(s: string)
    | VInt(i: int)
    /** `float(text)`, kept as the text: floating point is not part of this model */
    | VFloat(text: string)
    | VList(items: seq<string>)
    | VTuple(items: seq<string>)

  /** What a callback raises. */
  datatype NavError =
    | BadStatement          // `split('@')` did not give exactly two pieces (ValueError)
    | UnknownCommand(name: string)  // not a key of `known_commands` (KeyError)
    | NoArgs                // `args[0]` of an empty tuple (IndexError)
    | NotAnInt(text: string)        // `int()` of a page id or an int value (ValueError)
    | MissingPage(id: int)  // `structure[page_id]` (KeyError)
    | WrongArity(n: nat)    // `type_, value = args` with n arguments (ValueError)
    | Unsupported(typeName: string) // `UnsupportedType`
    | BytesOfStr            // `bytes(value)` of a str without an encoding (TypeError)
    | NoPreviousPage        // `prev_page_history[-2]` with fewer than two entries (IndexError)

  /** `str(UnsupportedType(t))`. */
  function UnsupportedMessage(t: string): string
  {
    "The " + t + " data type is not supported. Supported data types include int, str, float, list, tuple and bytes."
  }

  /** The message names the type it was raised for, and different types give different messages. */
  lemma UnsupportedMessageNames(t: string, u: string)
    ensures UnsupportedMessage(t)[4..4 + |t|] == t
    ensures UnsupportedMessage(t) == UnsupportedMessage(u) ==> t == u
  {
    var tail := " data type is not supported. Supported data types include int, str, float, list, tuple and bytes.";
    assert UnsupportedMessage(t) == "The " + t + tail;
    if UnsupportedMessage(t) == UnsupportedMessage(u) {
      assert |t| == |u|;
      assert t == UnsupportedMessage(t)[4..4 + |t|];
      assert u == UnsupportedMessage(u)[4..4 + |u|];
    }
  }

  /** `list(s)` and `tuple(s)` of a string: its characters, one string each. */
  function Chars(s: string): seq<string>
  {
    seq(|s|, i requires 0 <= i < |s| => [s[i]])
  }

  /** The items of `list(s)` are one character each, and joined back together they give `s`. */
  lemma {:induction false} CharsJoin(s: string)
    ensures forall i :: 0 <= i < |Chars(s)| ==> |Chars(s)[i]| == 1
    ensures Join(Chars(s), "") == s
    decreases |s|
  {
    if |s| > 1 {
      assert Chars(s) == [[s[0]]] + Chars(s[1..]);
      CharsJoin(s[1..]);
      JoinCons([s[0]], Chars(s[1..]), "");
      assert [s[0]] + "" + s[1..] == s;
    }
  }

  /** The type dispatch of `set_var`. */
  function Convert(typeName: string, value: string): Result<Value, NavError>
  {
    if typeName == "str" then Success(VStr(value))
    else if typeName == "int" then
      (match ParseInt(value)
       case None => Failure(NotAnInt(value))
       case Some(n) => Success(VInt(n)))
    else if typeName == "float" then Success(VFloat(value))
    else if typeName == "list" then Success(VList(Chars(value)))
    else if typeName == "tuple" then Success(VTuple(Chars(value)))
    else if typeName == "bytes" then Failure(BytesOfStr)
    else Failure(Unsupported(typeName))
  }

  /** The six type names `set_var` knows. */
  predicate KnownType(t: string) {
    t == "str" || t == "int" || t == "float" || t == "list" || t == "tuple" || t == "bytes"
  }

  /**
   * What `set_var` stores: `str` keeps the text, `int` parses it, `list` and
   * `tuple` split it into characters; `UnsupportedType` is raised exactly
   * for the names it does not know.
   */
  lemma ConvertCases(t: string, v: string)
    ensures Convert(t, v).Failure? && Convert(t, v).error.Unsupported? <==> !KnownType(t)
    ensures !KnownType(t) ==> Convert(t, v) == Failure(Unsupported(t))
    ensures t == "str" ==> Convert(t, v) == Success(VStr(v))
    ensures t == "int" ==> Convert(t, v) == if ParseInt(v).Some? then Success(VInt(ParseInt(v).value)) else Failure(NotAnInt(v))
    ensures t == "list" || t == "tuple" ==> Convert(t, v).Success? && Convert(t, v).value.items == Chars(v)
    ensures t == "bytes" ==> Convert(t, v) == Failure(BytesOfStr)
  {
  }

  /** The statement split of `_on_select`: the command, then the parameters. */
  function ParseStatement(statement: string): (r: Result<(string, seq<string>), NavError>)
    ensures r.Success? ==> |r.value.1| >= 1
  {
    var pieces := Split(statement, "@");
    if |pieces| != 2 then Failure(BadStatement)
    else Success((pieces[0], Split(pieces[1], ", ")))
  }

  /** A statement splits exactly when it holds one `@`. */
  lemma ParseStatementShape(statement: string)
    ensures ParseStatement(statement).Success? <==> Count(statement, '@') == 1
  {
    SplitCount(statement, '@');
  }

  /**
   * A statement written as `command@p1, p2, ...` gives back the command
   * and the parameters, when none of them holds an `@` or a comma.
   */
  lemma ParseStatementOf(command: string, params: seq<string>)
    requires '@' !in command && params != []
    requires forall i :: 0 <= i < |params| ==> '@' !in params[i] && ',' !in params[i]
    ensures ParseStatement(command + "@" + Join(params, ", ")) == Success((command, params))
  {
    NoCharInJoin(params, ", ", '@');
    SplitAt(command, Join(params, ", "));
    SplitJoin(params, ", ");
  }

  /** One `@` between two `@`-free texts splits them apart. */
  lemma SplitAt(command: string, text: string)
    requires '@' !in command && '@' !in text
    ensures Split(command + "@" + text, "@") == [command, text]
  {
    SplitFirst(command, "@", text);
    SplitNone(text, "@");
  }

  /** A character in no piece and not in the separator is not in the join. */
  lemma {:induction false} NoCharInJoin(parts: seq<string>, sep: string, c: char)
    requires c !in sep
    requires forall i :: 0 <= i < |parts| ==> c !in parts[i]
    ensures c !in Join(parts, sep)
    decreases |parts|
  {
    if |parts| > 1 {
      assert forall i :: 0 <= i < |parts[1..]| ==> parts[1..][i] == parts[i + 1];
      NoCharInJoin(parts[1..], sep, c);
    }
  }

  /** Python truthiness of an argument. */
  predicate Truthy(a: Arg) {
    match a
    case AInt(i) => i != 0
    case AStr(s) => s != ""
    case ABool(b) => b
  }

  /**
   * The page and the registration `goto` takes from its arguments: a
   * string page id goes through `int`, `True`/`False` count as 1/0 as dict
   * keys; without a second argument the visit is registered, with one its
   * truthiness decides.
   */
  function GotoTarget(args: seq<Arg>): Result<(int, bool), NavError>
  {
    if |args| == 0 then Failure(NoArgs)
    else
      match PageId(args[0])
      case Failure(e) => Failure(e)
      case Success(page) => Success((page, if |args| > 1 then Truthy(args[1]) else true))
  }

  /** The page id `goto` takes from its first argument. */
  function PageId(a: Arg): Result<int, NavError>
  {
    match a
    case AStr(s) => (if ParseInt(s).Some? then Success(ParseInt(s).value) else Failure(NotAnInt(s)))
    case AInt(i) => Success(i)
    case ABool(b) => Success(if b then 1 else 0)
  }

  /**
   * From a statement, `goto@id` registers the visit; so does
   * `goto@id, False`, whose second parameter is the non-empty string
   * "False"; only an empty second parameter (`goto@id, `) does not.
   */
  lemma GotoFromStatement(id: nat, second: string)
    ensures GotoTarget([AStr(Decimal(id))]) == Success((id, true))
    ensures GotoTarget([AStr(Decimal(id)), AStr(second)]) == Success((id, second != ""))
  {
    PageIdOfDecimal(id);
    var one := [AStr(Decimal(id))];
    var two := [AStr(Decimal(id)), AStr(second)];
    assert one[0] == two[0] == AStr(Decimal(id));
  }

  /** `int(str(id))` is the page id. */
  lemma PageIdOfDecimal(id: nat)
    ensures PageId(AStr(Decimal(id))) == Success(id)
  {
    ParseIntOfDecimal(id);
  }

  /** The entry texts of a page, in order. */
  function Keys(items: seq<(string, string)>): seq<string>
  {
    seq(|items|, i requires 0 <= i < |items| => items[i].0)
  }

  /** The statement of an entry text. */
  function Lookup(items: seq<(string, string)>, key: string): (r: Option<string>)
    ensures r.Some? <==> key in Keys(items)
  {
    if items == [] then None
    else if items[0].0 == key then
      assert Keys(items)[0] == key;
      Some(items[0].1)
    else
      var r := Lookup(items[1..], key);
      assert Keys(items) == [items[0].0] + Keys(items[1..]);
      r
  }

  /** A page's entries, like a dict's keys, are distinct. */
  predicate DistinctKeys(items: seq<(string, string)>) {
    forall i, j :: 0 <= i < j < |items| ==> items[i].0 != items[j].0
  }

  /** With distinct entries, the text shown at a position leads to that entry's statement. */
  lemma {:induction false} LookupAt(items: seq<(string, string)>, i: int)
    requires DistinctKeys(items) && 0 <= i < |items|
    ensures Lookup(items, Keys(items)[i]) == Some(items[i].1)
    decreases |items|
  {
    if i > 0 {
      assert items[0].0 != items[i].0;
      assert Keys(items)[i] == Keys(items[1..])[i - 1];
      LookupAt(items[1..], i - 1);
    }
  }

  /** The statement parameters as `goto` receives them: strings. */
  function StatementArgs(params: seq<string>): seq<Arg>
  {
    seq(|params|, i requires 0 <= i < |params| => AStr(params[i]))
  }

  /** The widget. */
  class NavigationBox {
    /** structure */
    const structure: map<int, seq<(string, string)>>
    /** cur_page_id */
    var cur: int
    /** prev_page_history */
    var history: seq<int>
    /** var: `None` until a `set_var` */
    var value: Option<Value>
    /** the entries of the list box */
    var shown: seq<string>
    /** whether the back button is enabled */
    var backEnabled: bool
    /** whether `grid` has run */
    var gridded: bool

    /**
     * Every page's entries are distinct and every recorded page exists; the
     * list box shows the current page's entries or, after a failed `goto`,
     * nothing; before `grid` nothing is recorded.
     */
    ghost predicate Pages()
      reads this`cur, this`history, this`shown, this`gridded
    {
      && (forall p :: p in structure ==> DistinctKeys(structure[p]))
      && (forall p :: p in history ==> p in structure)
      && (shown == [] || (cur in structure && shown == Keys(structure[cur])))
      && (!gridded ==> history == [])
    }

    /**
     * Besides `Pages`: once gridded there is at least one recorded page,
     * and the back button is enabled exactly when there are two.
     */
    ghost predicate Valid()
      reads this`cur, this`history, this`shown, this`backEnabled, this`gridded
    {
      && Pages()
      && (gridded ==> |history| >= 1 && (backEnabled <==> |history| >= 2))
      && (!gridded ==> backEnabled)
    }

    constructor (structure: map<int, seq<(string, string)>>)
      requires forall p :: p in structure ==> DistinctKeys(structure[p])
      ensures Valid()
      ensures this.structure == structure
      ensures cur == 0 && history == [] && value == None && shown == []
      ensures backEnabled && !gridded
    {
      this.structure := structure;
      cur := 0;
      history := [];
      value := None;
      shown := [];
      backEnabled := true;
      gridded := false;
    }

    /**
     * Clear the list box, then show the page, make it current and record
     * it when asked to; a page id the structure lacks raises after the
     * clear.
     */
    method GotoPage(page: int, register: bool) returns (err: Option<NavError>)
      requires Pages()
      requires register ==> gridded
      modifies this`cur, this`history, this`shown, this`backEnabled
      ensures Pages()
      ensures err.Some? <==> page !in structure
      ensures err.Some? ==>
        && err == Some(MissingPage(page)) && shown == []
        && cur == old(cur) && history == old(history) && backEnabled == old(backEnabled)
      ensures err.None? ==> shown == Keys(structure[page]) && cur == page
      ensures err.None? && register ==> history == old(history) + [page] && backEnabled
      ensures err.None? && !register ==> history == old(history) && backEnabled == old(backEnabled)
    {
      shown := [];
      if page !in structure {
        return Some(MissingPage(page));
      }
      shown := Keys(structure[page]);
      cur := page;
      if register {
        history := history + [page];
        backEnabled := true;
      }
      err := None;
    }

    /** `grid`: show page 0, recorded as the first page, and disable the back button. */
    method Grid() returns (err: Option<NavError>)
      requires Valid() && !gridded
      modifies this`cur, this`history, this`shown, this`backEnabled, this`gridded
      ensures Valid()
      ensures err.Some? <==> 0 !in structure
      ensures err.None? ==> gridded && cur == 0 && history == [0] && shown == Keys(structure[0]) && !backEnabled
      ensures err.Some? ==> unchanged(this`cur, this`history, this`backEnabled, this`gridded) && shown == []
    {
      if 0 !in structure {
        shown := [];
        return Some(MissingPage(0));
      }
      gridded := true;
      err := GotoPage(0, true);
      backEnabled := false;
    }

    /**
     * `goto(args)`: the arguments decide the page and whether it is
     * recorded; an argument that raises changes nothing.
     */
    method Goto(args: seq<Arg>) returns (err: Option<NavError>)
      requires Valid() && gridded
      modifies this`cur, this`history, this`shown, this`backEnabled
      ensures Valid()
      ensures GotoTarget(args).Failure? ==> err == Some(GotoTarget(args).error) && unchanged(this`cur, this`history, this`shown, this`backEnabled)
      ensures GotoTarget(args).Success? ==>
        var (page, register) := GotoTarget(args).value;
        && (err.Some? <==> page !in structure)
        && (err.None? ==> shown == Keys(structure[page]) && cur == page)
        && (err.None? && register ==> history == old(history) + [page] && cur == history[|history| - 1] && backEnabled)
        && (err.None? && !register ==> history == old(history) && backEnabled == old(backEnabled))
        && (err.Some? ==> shown == [] && cur == old(cur) && history == old(history))
    {
      var target := GotoTarget(args);
      if target.Failure? {
        return Some(target.error);
      }
      var (page, register) := target.value;
      err := GotoPage(page, register);
    }

    /**
     * `_back`: drop the last recorded page and show the one before it,
     * without recording it; disable the button when one page is left.
     */
    method Back() returns (err: Option<NavError>)
      requires Valid()
      modifies this`cur, this`history, this`shown, this`backEnabled
      ensures Valid()
      ensures err.Some? <==> |old(history)| < 2
      ensures err.Some? ==> err == Some(NoPreviousPage) && unchanged(this`cur, this`history, this`shown, this`backEnabled)
      ensures err.None? ==>
        && history == old(history)[..|old(history)| - 1]
        && cur == old(history)[|old(history)| - 2] == history[|history| - 1]
        && shown == Keys(structure[cur])
    {
      if |history| < 2 {
        return Some(NoPreviousPage);
      }
      var pid := history[|history| - 2];
      history := history[..|history| - 1];
      assert pid in history;
      err := GotoPage(pid, false);
      if |history| == 1 {
        backEnabled := false;
      }
    }

    /** `set_var(args)`: exactly a type name and a text, converted by type. */
    method SetVar(args: seq<string>) returns (err: Option<NavError>)
      modifies this`value
      ensures |args| != 2 ==> err == Some(WrongArity(|args|)) && value == old(value)
      ensures |args| == 2 ==>
        match Convert(args[0], args[1])
        case Success(v) => err.None? && value == Some(v)
        case Failure(e) => err == Some(e) && value == old(value)
    {
      if |args| != 2 {
        return Some(WrongArity(|args|));
      }
      var r := Convert(args[0], args[1]);
      if r.Failure? {
        return Some(r.error);
      }
      value := Some(r.value);
      err := None;
    }

    /**
     * `_on_select`: with nothing selected nothing happens; otherwise the
     * statement of the selected entry on the current page is split into a
     * command and its parameters and run. `goto` and `set_var` are the only
     * commands; a statement that does not split, or names another command,
     * raises and changes nothing.
     */
    method OnSelect(selection: Option<nat>) returns (err: Option<NavError>)
      requires Valid() && gridded
      requires selection.Some? ==> selection.value < |shown|
      modifies this`cur, this`history, this`shown, this`backEnabled, this`value
      ensures Valid()
      ensures selection.None? ==> err.None? && unchanged(this`cur, this`history, this`shown, this`backEnabled, this`value)
      ensures selection.Some? ==>
        var statement := old(StatementAt(selection.value));
        match ParseStatement(statement)
        case Failure(e) => err == Some(e) && unchanged(this`cur, this`history, this`shown, this`backEnabled, this`value)
        case Success((command, params)) =>
          if command == "goto" then
            && value == old(value)
            && (match GotoTarget(StatementArgs(params))
                case Failure(e) => err == Some(e) && unchanged(this`cur, this`history, this`shown, this`backEnabled)
                case Success((page, register)) =>
                  && (err.Some? <==> page !in structure)
                  && (err.None? ==> cur == page && shown == Keys(structure[page]))
                  && (err.None? && register ==> history == old(history) + [page])
                  && (err.None? && !register ==> history == old(history)))
          else if command == "set_var" then
            && unchanged(this`cur, this`history, this`shown, this`backEnabled)
            && (|params| != 2 ==> err == Some(WrongArity(|params|)) && value == old(value))
            && (|params| == 2 ==>
                  match Convert(params[0], params[1])
                  case Success(v) => err.None? && value == Some(v)
                  case Failure(e) => err == Some(e) && value == old(value))
          else
            err == Some(UnknownCommand(command)) && unchanged(this`cur, this`history, this`shown, this`backEnabled, this`value)
    {
      if selection.None? {
        return None;
      }
      var statement := StatementAt(selection.value);
      var parsed := ParseStatement(statement);
      if parsed.Failure? {
        return Some(parsed.error);
      }
      var (command, params) := parsed.value;
      if command == "goto" {
        err := Goto(StatementArgs(params));
      } else if command == "set_var" {
        err := SetVar(params);
      } else {
        err := Some(UnknownCommand(command));
      }
    }

    /**
     * `structure[cur_page_id][selection]`: the statement of the entry shown
     * at a position; it is the statement of the entry at that position.
     */
    function StatementAt(index: nat): (statement: string)
      reads this`cur, this`history, this`shown, this`backEnabled, this`gridded
      requires Valid() && index < |shown|
      ensures statement == structure[cur][index].1
    {
      assert forall p :: p in structure ==> DistinctKeys(structure[p]);
      assert cur in structure;
      assert DistinctKeys(structure[cur]);
      LookupAt(structure[cur], index);
      Lookup(structure[cur], shown[index]).value
    }
  }
}
