/**
 The languages table: UpdateLanguages and GetLanguages of internal/repository/repository.go.  The
 encoding of JSON and of the jsonb column are taken to be faithful.
 */
module LanguageCodec {
  import opened Transactions

  datatype Json = Str(text: string) | Obj(fields: map<string, Json>) | Other(repr: string)

  /** A row; its code is the key it is stored under. */
  datatype LangRow = LangRow(data: Json, flag: string, name: string)

  /** A missing or non-string field counts as the empty string. */
  function Text(fields: map<string, Json>, key: string): string {
    if key in fields && fields[key].Str? then fields[key].text else ""
  }

  function SplitOne(fields: map<string, Json>): LangRow {
    LangRow(Obj(fields - {"flag", "name"}), Text(fields, "flag"), Text(fields, "name"))
  }

  /** The rows UpdateLanguages stores: entries that are not objects are dropped. */
  function Split(langs: map<string, Json>): map<string, LangRow> {
    map code | code in langs && langs[code].Obj? :: SplitOne(langs[code].fields)
  }

  function JoinOne(row: LangRow): Json {
    var fields := if row.data.Obj? then row.data.fields else map[];
    Obj(fields["flag" := Str(row.flag)]["name" := Str(row.name)])
  }

  /** The value GetLanguages returns. */
  function Join(rows: map<string, LangRow>): map<string, Json> {
    map code | code in rows :: JoinOne(rows[code])
  }

  /** The columns of a row hold an entry: its flag and its name if they are strings, and its other fields. */
  ghost predicate HoldsEntry(row: LangRow, fields: map<string, Json>) {
    && row.flag == (if "flag" in fields && fields["flag"].Str? then fields["flag"].text else "")
    && row.name == (if "name" in fields && fields["name"].Str? then fields["name"].text else "")
    && row.data.Obj? && row.data.fields.Keys == fields.Keys - {"flag", "name"}
    && forall k :: k in row.data.fields ==> row.data.fields[k] == fields[k]
  }

  /** One row for each entry that is an object. */
  ghost predicate HoldLanguages(rows: map<string, LangRow>, langs: map<string, Json>) {
    && (forall code :: code in rows <==> code in langs && langs[code].Obj?)
    && forall code :: code in rows ==> HoldsEntry(rows[code], langs[code].fields)
  }

  /** A value shows a row: its two text columns under "flag" and "name", and the other fields of its data. */
  ghost predicate ShowsRow(v: Json, row: LangRow) {
    && v.Obj? && "flag" in v.fields && v.fields["flag"] == Str(row.flag)
    && "name" in v.fields && v.fields["name"] == Str(row.name)
    && (forall k :: k in v.fields && k != "flag" && k != "name" ==>
          row.data.Obj? && k in row.data.fields && v.fields[k] == row.data.fields[k])
    && (row.data.Obj? ==> row.data.fields.Keys <= v.fields.Keys)
  }

  ghost predicate ShowLanguages(value: map<string, Json>, rows: map<string, LangRow>) {
    value.Keys == rows.Keys && forall code :: code in rows ==> ShowsRow(value[code], rows[code])
  }

  lemma SplitHolds(langs: map<string, Json>)
    ensures HoldLanguages(Split(langs), langs)
  {
    forall code | code in Split(langs) ensures HoldsEntry(Split(langs)[code], langs[code].fields) {
      SplitOneHolds(langs[code].fields);
    }
  }

  lemma SplitOneHolds(fields: map<string, Json>)
    ensures HoldsEntry(SplitOne(fields), fields)
  {
  }

  lemma JoinShows(rows: map<string, LangRow>)
    ensures ShowLanguages(Join(rows), rows)
  {
    forall code | code in rows ensures ShowsRow(Join(rows)[code], rows[code]) {
      JoinOneShows(rows[code]);
    }
  }

  lemma JoinOneShows(row: LangRow)
    ensures ShowsRow(JoinOne(row), row)
  {
  }

  // The loops over maps, whose order is arbitrary.

  /** The inner loop of UpdateLanguages. */
  method WithoutTexts(fields: map<string, Json>) returns (cp: map<string, Json>)
    ensures cp == fields - {"flag", "name"}
  {
    cp := map[];
    var todo := fields.Keys;
    while todo != {}
      invariant todo <= fields.Keys
      invariant cp == map k | k in fields && k !in todo && k != "flag" && k != "name" :: fields[k]
      decreases todo
    {
      var k :| k in todo;
      todo := todo - {k};
      if k != "flag" && k != "name" {
        cp := cp[k := fields[k]];
      }
    }
  }

  datatype Statement = DeleteAll | InsertCode(code: string)

  predicate AllSucceed(langs: map<string, Json>, fate: Fate<Statement>) {
    fate.begins && fate.statement(DeleteAll) && fate.commits && InsertsSucceed(langs, {}, fate)
  }

  /** Those of the objects visited; `todo` are still to be visited. */
  predicate InsertsSucceed(langs: map<string, Json>, todo: set<string>, fate: Fate<Statement>) {
    forall code :: code in langs && code !in todo && langs[code].Obj? ==> fate.statement(InsertCode(code))
  }

  function SplitSoFar(langs: map<string, Json>, todo: set<string>): map<string, LangRow> {
    map code | code in langs && code !in todo && langs[code].Obj? :: SplitOne(langs[code].fields)
  }

  lemma SplitStep(langs: map<string, Json>, todo: set<string>, code: string, fate: Fate<Statement>)
    requires code in todo && code in langs
    ensures SplitSoFar(langs, todo - {code}) ==
            (if langs[code].Obj? then SplitSoFar(langs, todo)[code := SplitOne(langs[code].fields)]
             else SplitSoFar(langs, todo))
    ensures InsertsSucceed(langs, todo - {code}, fate) <==>
              InsertsSucceed(langs, todo, fate) && (langs[code].Obj? ==> fate.statement(InsertCode(code)))
  {
    assert forall c :: c in langs && c !in todo - {code} <==> c in langs && (c !in todo || c == code);
  }

  class Table {
    var rows: map<string, LangRow>

    constructor (rows: map<string, LangRow>)
      ensures this.rows == rows
    {
      this.rows := rows;
    }

    /** Errors of single statements are ignored, but a failed statement aborts the transaction. */
    method UpdateLanguages(langs: map<string, Json>, fate: Fate<Statement>) returns (err: bool)
      modifies this
      ensures err <==> !AllSucceed(langs, fate)
      ensures rows == if err then old(rows) else Split(langs)
      ensures !err ==> HoldLanguages(rows, langs)
    {
      if !fate.begins {
        return true;
      }
      var tx := new Tx(rows);
      var ignored := tx.Exec(fate.statement(DeleteAll), map[]);
      var todo := langs.Keys;
      while todo != {}
        invariant todo <= langs.Keys && rows == old(rows) && fresh(tx)
        invariant tx.aborted <==> !fate.statement(DeleteAll) || !InsertsSucceed(langs, todo, fate)
        invariant !tx.aborted ==> tx.work == SplitSoFar(langs, todo)
        decreases todo
      {
        var code :| code in todo;
        SplitStep(langs, todo, code, fate);
        todo := todo - {code};
        var val := langs[code];
        if val.Obj? {
          var cp := WithoutTexts(val.fields);
          var row := LangRow(Obj(cp), Text(val.fields, "flag"), Text(val.fields, "name"));
          ignored := tx.Exec(fate.statement(InsertCode(code)), tx.work[code := row]);
        }
      }
      SplitHolds(langs);
      err := tx.Commit(fate.commits);
      if !err {
        rows := tx.work;
      }
    }

    method GetLanguages() returns (result: map<string, Json>)
      ensures result == Join(rows) && ShowLanguages(result, rows)
    {
      result := map[];
      var todo := rows.Keys;
      while todo != {}
        invariant todo <= rows.Keys
        invariant result == map c | c in rows && c !in todo :: JoinOne(rows[c])
        decreases todo
      {
        var code :| code in todo;
        todo := todo - {code};
        var langData := if rows[code].data.Obj? then rows[code].data.fields else map[];
        langData := langData["flag" := Str(rows[code].flag)];
        langData := langData["name" := Str(rows[code].name)];
        result := result[code := Obj(langData)];
      }
      assert result == Join(rows);
      JoinShows(rows);
    }
  }

  // What a write and a read do to a value.

  predicate HasText(fields: map<string, Json>, key: string) {
    key in fields && fields[key].Str?
  }

  /** Every entry is an object with a string flag and a string name. */
  predicate IsNormal(langs: map<string, Json>) {
    forall code :: code in langs ==>
      langs[code].Obj? && HasText(langs[code].fields, "flag") && HasText(langs[code].fields, "name")
  }

  /** f is g with a string for flag and name, those of g if it has them, and nothing else changed. */
  ghost predicate IsNormalEntryOf(f: map<string, Json>, g: map<string, Json>) {
    && HasText(f, "flag") && HasText(f, "name")
    && f.Keys == g.Keys + {"flag", "name"}
    && (forall k :: k in g && k != "flag" && k != "name" ==> f[k] == g[k])
    && f["flag"].text == Text(g, "flag") && f["name"].text == Text(g, "name")
  }

  /** n is langs without the entries that are not objects, the others in normal form. */
  ghost predicate IsNormalFormOf(n: map<string, Json>, langs: map<string, Json>) {
    && (forall code :: code in n <==> code in langs && langs[code].Obj?)
    && forall code :: code in n ==> n[code].Obj? && IsNormalEntryOf(n[code].fields, langs[code].fields)
  }

  lemma RoundTripOfEntry(g: map<string, Json>)
    ensures JoinOne(SplitOne(g)).Obj? && IsNormalEntryOf(JoinOne(SplitOne(g)).fields, g)
  {
  }

  lemma NormalEntryIsUnique(f: map<string, Json>, f': map<string, Json>, g: map<string, Json>)
    requires IsNormalEntryOf(f, g) && IsNormalEntryOf(f', g)
    ensures f == f'
  {
    forall k | k in f ensures f[k] == f'[k] {
    }
  }

  lemma RoundTripIsNormalForm(langs: map<string, Json>)
    ensures IsNormalFormOf(Join(Split(langs)), langs) && IsNormal(Join(Split(langs)))
  {
    var n := Join(Split(langs));
    forall code | code in n ensures n[code].Obj? && IsNormalEntryOf(n[code].fields, langs[code].fields) {
      RoundTripOfEntry(langs[code].fields);
    }
  }

  lemma NormalFormIsUnique(n: map<string, Json>, n': map<string, Json>, langs: map<string, Json>)
    requires IsNormalFormOf(n, langs) && IsNormalFormOf(n', langs)
    ensures n == n'
  {
    forall code | code in n ensures n[code] == n'[code] {
      NormalEntryIsUnique(n[code].fields, n'[code].fields, langs[code].fields);
    }
    assert n.Keys == n'.Keys;
  }

  lemma NormalIsNormalForm(langs: map<string, Json>)
    requires IsNormal(langs)
    ensures IsNormalFormOf(langs, langs)
  {
    forall code | code in langs ensures IsNormalEntryOf(langs[code].fields, langs[code].fields) {
      assert HasText(langs[code].fields, "flag") && HasText(langs[code].fields, "name");
      assert langs[code].fields.Keys == langs[code].fields.Keys + {"flag", "name"};
    }
  }

  /** Writing and reading back is the identity exactly on the normal values. */
  lemma RoundTripIdentityIff(langs: map<string, Json>)
    ensures Join(Split(langs)) == langs <==> IsNormal(langs)
  {
    RoundTripIsNormalForm(langs);
    if IsNormal(langs) {
      NormalIsNormalForm(langs);
      NormalFormIsUnique(Join(Split(langs)), langs, langs);
    }
  }

  /** A second round trip changes nothing. */
  lemma RoundTripIdempotent(langs: map<string, Json>)
    ensures Join(Split(Join(Split(langs)))) == Join(Split(langs))
  {
    RoundTripIsNormalForm(langs);
    RoundTripIdentityIff(Join(Split(langs)));
  }
}
