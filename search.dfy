/**
 * The database search box: an entry whose text, on every change, is
 * turned into an SQL query; the rows the query returns are shown one per
 * line. The query is either the widget's own `sql` followed by its
 * `pfilter` with `{sv}` standing for the text, or a default
 * `SELECT <fields> FROM <table> WHERE <field> LIKE '%<text>%'`; the
 * filter is dropped while the text is empty.
 */
module Search {
  import opened Wrappers
  import opened PyText

  /** `show_fields`: `None`, a tuple of field names, or any other text. */
  datatype ShowFields = NoFields | FieldTuple(names: seq<string>) | FieldText(text: string)

  /** The configuration given to the widget's constructor. */
  datatype Config = Config(
    table: Option<string>,
    searchField: Option<string>,
    showFields: ShowFields,
    sql: Option<string>,
    pfilter: Option<string>)

  /** `self.pfilter.replace(...)` on a `None` filter raises `AttributeError`. */
  datatype SearchError = NoFilter

  /** `str()` of an optional text. */
  function Str(o: Option<string>): string {
    match o
    case None => "None"
    case Some(s) => s
  }

  /** A field name that `repr` writes between single quotes as it is. */
  predicate Plain(name: string) {
    && '\'' !in name && '\\' !in name
    && forall i :: 0 <= i < |name| ==> ' ' <= name[i] <= '~'
  }

  function Quoted(names: seq<string>): seq<string>
  {
    seq(|names|, i requires 0 <= i < |names| => "'" + names[i] + "'")
  }

  /** `str()` of a tuple of plain names: a one-element tuple keeps a trailing comma. */
  function TupleRepr(names: seq<string>): string
  {
    "(" + Join(Quoted(names), ", ") + (if |names| == 1 then "," else "") + ")"
  }

  function ReprOf(fields: ShowFields): string
    requires fields.FieldTuple? ==> forall i :: 0 <= i < |fields.names| ==> Plain(fields.names[i])
  {
    match fields
    case NoFields => "None"
    case FieldTuple(names) => TupleRepr(names)
    case FieldText(text) => text
  }

  predicate IsParen(c: char) {
    c == '(' || c == ')'
  }

  /** `str(show_fields).strip("()").replace("'", '')`. */
  function FieldList(fields: ShowFields): string
    requires fields.FieldTuple? ==> forall i :: 0 <= i < |fields.names| ==> Plain(fields.names[i])
  {
    Replace(Strip(ReprOf(fields), IsParen), "'", "")
  }

  /** Whether the custom `sql` is used: Python truthiness of an optional text. */
  predicate HasSql(cfg: Config) {
    cfg.sql.Some? && cfg.sql.value != ""
  }

  /**
   * The query `search` executes for the search text `text`: the base
   * query, followed by the filter when the text is not empty.
   */
  function Query(cfg: Config, text: string): Result<string, SearchError>
    requires cfg.showFields.FieldTuple? ==> forall i :: 0 <= i < |cfg.showFields.names| ==> Plain(cfg.showFields.names[i])
  {
    var base: Result<(string, string), SearchError> :=
      if HasSql(cfg) then
        (if cfg.pfilter.None? then Failure(NoFilter)
         else Success((cfg.sql.value, " " + Replace(cfg.pfilter.value, "{sv}", text))))
      else
        Success(("SELECT " + FieldList(cfg.showFields) + " FROM " + Str(cfg.table),
                 " WHERE " + Str(cfg.searchField) + " LIKE '%" + text + "%'"));
    if base.Failure? then Failure(base.error)
    else if text != "" then Success(base.value.0 + base.value.1)
    else Success(base.value.0)
  }

  /** No tuple is written `None`. */
  lemma FieldListOfNone()
    ensures FieldList(NoFields) == "None"
  {
    StripPadded("", "None", "", IsParen);
    assert "" + "None" + "" == "None";
    ReplaceNone("None", "'", "");
  }

  /** An empty tuple gives no fields at all. */
  lemma FieldListOfEmpty()
    ensures FieldList(FieldTuple([])) == ""
  {
    assert TupleRepr([]) == "()";
    assert Strip("()", IsParen) == "";
  }

  /**
   * A tuple of field names becomes the names separated by `, `, with the
   * trailing comma of a one-element tuple kept.
   */
  lemma FieldListOfTuple(names: seq<string>)
    requires names != []
    requires forall i :: 0 <= i < |names| ==> Plain(names[i])
    ensures FieldList(FieldTuple(names)) == Join(names, ", ") + (if |names| == 1 then "," else "")
  {
    StripRepr(names);
    Unquote(names, if |names| == 1 then "," else "");
  }

  /** Stripping the parentheses of a non-empty tuple leaves the quoted names and the comma. */
  lemma StripRepr(names: seq<string>)
    requires names != []
    ensures Strip(TupleRepr(names), IsParen) == Join(Quoted(names), ", ") + (if |names| == 1 then "," else "")
  {
    var core := Join(Quoted(names), ", ") + (if |names| == 1 then "," else "");
    JoinQuoted(names);
    assert TupleRepr(names) == "(" + core + ")";
    StripPadded("(", core, ")", IsParen);
  }

  /** The joined quoted names start and end with a quote. */
  lemma {:induction false} JoinQuoted(names: seq<string>)
    requires names != []
    ensures var j := Join(Quoted(names), ", "); |j| >= 2 && j[0] == '\'' && j[|j| - 1] == '\''
    decreases |names|
  {
    if |names| > 1 {
      assert Quoted(names)[1..] == Quoted(names[1..]);
      JoinQuoted(names[1..]);
    }
  }

  /** Deleting the quotes of one quoted name followed by a text. */
  lemma UnquoteOne(name: string, rest: string)
    requires '\'' !in name
    ensures Replace("'" + name + "'" + rest, "'", "") == name + Replace(rest, "'", "")
  {
    assert "'" + name + "'" + rest == "" + ['\''] + (name + ['\''] + rest);
    DeleteFirst("", '\'', name + ['\''] + rest);
    DeleteFirst(name, '\'', rest);
  }

  /** Deleting the quotes from the joined quoted names gives the names joined. */
  lemma {:induction false} Unquote(names: seq<string>, tail: string)
    requires forall i :: 0 <= i < |names| ==> Plain(names[i])
    requires '\'' !in tail
    ensures Replace(Join(Quoted(names), ", ") + tail, "'", "") == Join(names, ", ") + tail
    decreases |names|
  {
    if names == [] {
      assert Join(Quoted(names), ", ") + tail == tail;
      ReplaceNone(tail, "'", "");
    } else if |names| == 1 {
      assert Join(Quoted(names), ", ") + tail == "'" + names[0] + "'" + tail;
      UnquoteOne(names[0], tail);
      ReplaceNone(tail, "'", "");
    } else {
      var name, more := names[0], names[1..];
      var j := Join(Quoted(more), ", ");
      assert Quoted(names)[1..] == Quoted(more);
      assert Join(Quoted(names), ", ") + tail == "'" + name + "'" + (", " + (j + tail));
      UnquoteOne(name, ", " + (j + tail));
      DeleteAfter(", ", '\'', j + tail);
      Unquote(more, tail);
      assert Join(names, ", ") + tail == name + (", " + (Join(more, ", ") + tail));
    }
  }

  /**
   * The default query selects the listed fields from the table and, for a
   * non-empty text, keeps the rows whose search field contains it.
   */
  lemma DefaultQuery(cfg: Config, names: seq<string>, text: string)
    requires !HasSql(cfg) && cfg.showFields == FieldTuple(names) && |names| >= 2
    requires forall i :: 0 <= i < |names| ==> Plain(names[i])
    ensures var select := "SELECT " + Join(names, ", ") + " FROM " + Str(cfg.table);
      var filter := " WHERE " + Str(cfg.searchField) + " LIKE '%" + text + "%'";
      Query(cfg, text) == Success(if text == "" then select else select + filter)
  {
    FieldListOfTuple(names);
    assert Join(names, ", ") + "" == Join(names, ", ");
    DefaultQueryShape(cfg, text);
  }

  /** Without custom SQL the query is built from the field list, the table and the search field. */
  lemma DefaultQueryShape(cfg: Config, text: string)
    requires !HasSql(cfg)
    requires cfg.showFields.FieldTuple? ==> forall i :: 0 <= i < |cfg.showFields.names| ==> Plain(cfg.showFields.names[i])
    ensures var select := "SELECT " + FieldList(cfg.showFields) + " FROM " + Str(cfg.table);
      var filter := " WHERE " + Str(cfg.searchField) + " LIKE '%" + text + "%'";
      Query(cfg, text) == Success(if text == "" then select else select + filter)
  {
  }

  /**
   * With custom SQL, the text takes the place of every `{sv}` in the
   * filter, and the filter follows the SQL after a space. The filter is
   * written as the stretches between its `{sv}`s, none holding a `{`.
   */
  lemma CustomQuery(cfg: Config, parts: seq<string>, text: string)
    requires HasSql(cfg) && parts != [] && cfg.pfilter == Some(Join(parts, "{sv}"))
    requires cfg.showFields.FieldTuple? ==> forall i :: 0 <= i < |cfg.showFields.names| ==> Plain(cfg.showFields.names[i])
    requires forall i :: 0 <= i < |parts| ==> '{' !in parts[i]
    requires text != ""
    ensures Query(cfg, text) == Success(cfg.sql.value + " " + Join(parts, text))
  {
    SplitJoin(parts, "{sv}");
    assert Replace(cfg.pfilter.value, "{sv}", text) == Join(parts, text);
    assert cfg.sql.value + (" " + Join(parts, text)) == cfg.sql.value + " " + Join(parts, text);
  }

  /**
   * An empty text runs the bare base query; custom SQL without a filter
   * raises whatever the text.
   */
  lemma QueryWithoutFilter(cfg: Config, text: string)
    requires cfg.showFields.FieldTuple? ==> forall i :: 0 <= i < |cfg.showFields.names| ==> Plain(cfg.showFields.names[i])
    ensures HasSql(cfg) && cfg.pfilter.None? <==> Query(cfg, text).Failure?
    ensures text == "" && Query(cfg, text).Success? ==>
      Query(cfg, text).value == if HasSql(cfg) then cfg.sql.value else "SELECT " + FieldList(cfg.showFields) + " FROM " + Str(cfg.table)
  {
  }

  /** One shown line per result row: its values joined by ` | `. */
  function RowLines(rows: seq<seq<string>>): seq<string>
  {
    seq(|rows|, i requires 0 <= i < |rows| => Join(rows[i], " | "))
  }

  /** A row of values that hold no space is read back from its line. */
  lemma RowLineSplits(rows: seq<seq<string>>, i: int)
    requires 0 <= i < |rows| && rows[i] != []
    requires forall j :: 0 <= j < |rows[i]| ==> ' ' !in rows[i][j]
    ensures Split(RowLines(rows)[i], " | ") == rows[i]
  {
    SplitJoin(rows[i], " | ");
  }

  /** `n` copies of `q`, in a row. */
  function Repeat(q: string, n: nat): (qs: seq<string>)
  {
    seq(n, _ => q)
  }

  /** The widget: its fixed configuration, the text typed so far, what it ran and what it shows. */
  class DBSearchBox {
    const cfg: Config
    /** the `StringVar` of the entry */
    var text: string
    /** the queries passed to `cursor.execute`, in order */
    var executed: seq<string>
    /** the lines of the list box */
    var shown: seq<string>
    /** how many traces that search on every edit `grid` has installed, one per call */
    var traces: nat

    ghost predicate Valid() {
      cfg.showFields.FieldTuple? ==> forall i :: 0 <= i < |cfg.showFields.names| ==> Plain(cfg.showFields.names[i])
    }

    constructor (cfg: Config)
      requires cfg.showFields.FieldTuple? ==> forall i :: 0 <= i < |cfg.showFields.names| ==> Plain(cfg.showFields.names[i])
      ensures Valid()
      ensures this.cfg == cfg && text == "" && executed == [] && shown == [] && traces == 0
    {
      this.cfg := cfg;
      text := "";
      executed := [];
      shown := [];
      traces := 0;
    }

    /** `grid`: install one more trace on the entry's text, then search once. */
    method Grid(rows: seq<seq<string>>) returns (err: Option<SearchError>)
      requires Valid()
      modifies this`traces, this`executed, this`shown
      ensures traces == old(traces) + 1
      ensures err.Some? <==> Query(cfg, text).Failure?
      ensures err.Some? ==> executed == old(executed) && shown == old(shown)
      ensures err.None? ==> executed == old(executed) + [Query(cfg, text).value] && shown == RowLines(rows)
    {
      traces := traces + 1;
      err := Search(rows);
    }

    /**
     * `search`: run the query for the current text, clear the box, then
     * show the rows the database returns (`rows`), one line each. When
     * building the query raises, nothing is run and the box is kept.
     */
    method Search(rows: seq<seq<string>>) returns (err: Option<SearchError>)
      requires Valid()
      modifies this`executed, this`shown
      ensures err.Some? <==> Query(cfg, text).Failure?
      ensures err.Some? ==> err == Some(Query(cfg, text).error) && executed == old(executed) && shown == old(shown)
      ensures err.None? ==> executed == old(executed) + [Query(cfg, text).value] && shown == RowLines(rows)
    {
      var q := Query(cfg, text);
      if q.Failure? {
        return Some(q.error);
      }
      executed := executed + [q.value];
      ShowRows(rows);
      err := None;
    }

    /** `clear`, then one `insert` per row. */
    method ShowRows(rows: seq<seq<string>>)
      modifies this`shown
      ensures shown == RowLines(rows)
    {
      shown := [];
      var k := 0;
      while k < |rows|
        invariant 0 <= k <= |rows|
        invariant |shown| == k
        invariant forall j :: 0 <= j < k ==> shown[j] == Join(rows[j], " | ")
      {
        shown := shown + [Join(rows[k], " | ")];
        k := k + 1;
      }
    }

    /**
     * A change of the entry's text: each trace `grid` installed runs
     * `search` for the new text, so with no trace nothing runs. An error
     * raised in a trace is reported by Tk and the next trace still runs;
     * `err` is the last one.
     */
    method Edit(newText: string, rows: seq<seq<string>>) returns (err: Option<SearchError>)
      requires Valid()
      modifies this`text, this`executed, this`shown
      ensures text == newText
      ensures err.Some? <==> traces > 0 && Query(cfg, newText).Failure?
      ensures Query(cfg, newText).Failure? ==> executed == old(executed) && shown == old(shown)
      ensures Query(cfg, newText).Success? ==>
        && executed == old(executed) + Repeat(Query(cfg, newText).value, traces)
        && shown == if traces == 0 then old(shown) else RowLines(rows)
    {
      text := newText;
      err := None;
      var k := 0;
      while k < traces
        invariant 0 <= k <= traces && text == newText
        invariant err.Some? <==> k > 0 && Query(cfg, newText).Failure?
        invariant Query(cfg, newText).Failure? ==> executed == old(executed) && shown == old(shown)
        invariant Query(cfg, newText).Success? ==>
          && executed == old(executed) + Repeat(Query(cfg, newText).value, k)
          && shown == if k == 0 then old(shown) else RowLines(rows)
      {
        err := Search(rows);
        if Query(cfg, newText).Success? {
          var q := Query(cfg, newText).value;
          assert Repeat(q, k + 1) == Repeat(q, k) + [q];
        }
        k := k + 1;
      }
    }
  }
}
