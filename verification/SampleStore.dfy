/** The samples table, keyed by message, and the documents its rows stand for. */
module SampleStore {
  import opened SampleStream
  import opened ClassifierTables

  datatype Kind = Ham | Spam

  datatype Origin = Preset | User | Any

  datatype Sample = Sample(kind: Kind, origin: Origin)

  type Rows = map<string, Sample>

  function ClassOf(k: Kind): Class {
    if k.Spam? then "spam" else "ham"
  }

  /** The row has the kind and the origin; any origin will do for `Any`. */
  predicate Selects(s: Sample, kind: Kind, origin: Origin) {
    s.kind == kind && (origin == Any || s.origin == origin)
  }

  /** order lists the messages of one kind and origin, each once. */
  ghost predicate Lists(order: seq<string>, rows: Rows, kind: Kind, origin: Origin) {
    && (forall i, j :: 0 <= i < j < |order| ==> order[i] != order[j])
    && (forall m :: m in order <==> m in rows && Selects(rows[m], kind, origin))
  }

  class Samples {
    var rows: Rows

    constructor ()
      ensures rows == map[]
    {
      rows := map[];
    }

    /** Adds a sample or replaces the one with the same message. */
    method Add(kind: Kind, origin: Origin, message: string, dbOk: bool) returns (ok: bool)
      modifies this
      ensures ok <==> origin != Any && message != "" && dbOk
      ensures rows == if ok then old(rows)[message := Sample(kind, origin)] else old(rows)
    {
      if origin == Any || message == "" || !dbOk {
        return false;
      }
      rows := rows[message := Sample(kind, origin)];
      ok := true;
    }

    /** Removes a sample by its message, whatever its kind and origin. */
    method DeleteMessage(message: string, dbOk: bool) returns (ok: bool)
      modifies this
      ensures ok <==> message in old(rows) && dbOk
      ensures rows == if ok then old(rows) - {message} else old(rows)
    {
      if message !in rows || !dbOk {
        return false;
      }
      rows := rows - {message};
      ok := true;
    }

    /** A reader over the rows of one kind and origin. The order is that of the timestamps, so
        nothing is said about it. */
    method Reader(kind: Kind, origin: Origin) returns (r: SampleReader, ghost order: seq<string>)
      ensures fresh(r) && !r.closed && r.Rest() == Stream(order)
      ensures Lists(order, rows, kind, origin)
      ensures forall m :: m in order <==>
                m in rows && rows[m].kind == kind && (origin == Any || rows[m].origin == origin)
    {
      var left := set m | m in rows && Selects(rows[m], kind, origin);
      var found: seq<string> := [];
      while left != {}
        invariant forall i, j :: 0 <= i < j < |found| ==> found[i] != found[j]
        invariant forall m :: m in rows && Selects(rows[m], kind, origin) <==> m in found || m in left
        invariant forall m :: m in found ==> m !in left
      {
        var m :| m in left;
        found := found + [m];
        left := left - {m};
      }
      order := found;
      r := new SampleReader(found);
    }
  }

  // What the rows stand for. Tokenising a line is an opaque function of the line.

  type Tokenizer = string -> map<Token, int>

  function DocumentsOf(tok: Tokenizer, c: Class, elements: seq<string>): (ds: seq<Document>)
    ensures |ds| == |elements|
    ensures forall i :: 0 <= i < |ds| ==> ds[i].cls == c && forall t :: t in ds[i].tokens <==> t in tok(elements[i])
  {
    seq(|elements|, i requires 0 <= i < |elements| => Document(c, tok(elements[i]).Keys))
  }

  lemma DocumentsAppend(tok: Tokenizer, c: Class, a: seq<string>, b: seq<string>)
    ensures DocumentsOf(tok, c, a + b) == DocumentsOf(tok, c, a) + DocumentsOf(tok, c, b)
  {
  }

  function MessageDocs(tok: Tokenizer, kind: Kind, message: string): seq<Document> {
    DocumentsOf(tok, ClassOf(kind), Elements(message))
  }

  /** What f makes of all rows together. */
  ghost function Gathered<T>(f: (Kind, string) -> seq<T>, rows: Rows): multiset<T>
    decreases |rows|
  {
    if rows == map[] then multiset{}
    else
      var m :| m in rows;
      multiset(f(rows[m].kind, m)) + Gathered(f, rows - {m})
  }

  lemma {:induction false} GatheredTake<T>(f: (Kind, string) -> seq<T>, rows: Rows, m: string)
    requires m in rows
    ensures Gathered(f, rows) == multiset(f(rows[m].kind, m)) + Gathered(f, rows - {m})
    decreases |rows|
  {
    var n :| n in rows && Gathered(f, rows) == multiset(f(rows[n].kind, n)) + Gathered(f, rows - {n});
    if n != m {
      GatheredTake(f, rows - {n}, m);
      GatheredTake(f, rows - {m}, n);
      assert rows - {m} - {n} == rows - {n} - {m};
    }
  }

  lemma GatheredPut<T>(f: (Kind, string) -> seq<T>, rows: Rows, m: string, s: Sample)
    ensures Gathered(f, rows[m := s]) == Gathered(f, rows - {m}) + multiset(f(s.kind, m))
  {
    GatheredTake(f, rows[m := s], m);
    assert rows[m := s] - {m} == rows - {m};
  }

  /** What f makes of messages of one kind, in order. */
  function Joined<T>(f: (Kind, string) -> seq<T>, kind: Kind, order: seq<string>): seq<T> {
    if order == [] then [] else f(kind, order[0]) + Joined(f, kind, order[1..])
  }

  lemma {:induction false} GatheredListed<T>(f: (Kind, string) -> seq<T>, rows: Rows, order: seq<string>, kind: Kind)
    requires forall i, j :: 0 <= i < j < |order| ==> order[i] != order[j]
    requires forall m :: m in order ==> m in rows && rows[m].kind == kind
    ensures Gathered(f, rows) == multiset(Joined(f, kind, order)) + Gathered(f, rows - (set m | m in order))
    decreases |order|
  {
    if order == [] {
      assert rows - (set m | m in order) == rows;
    } else {
      var m, rest := order[0], order[1..];
      assert order == [m] + rest;
      GatheredTake(f, rows, m);
      GatheredListed(f, rows - {m}, rest, kind);
      assert rows - {m} - (set x | x in rest) == rows - (set x | x in order);
    }
  }

  /** Rows of both kinds, listed in any order, are all rows. */
  lemma GatheredAll<T>(f: (Kind, string) -> seq<T>, rows: Rows, spam: seq<string>, ham: seq<string>)
    requires Lists(spam, rows, Spam, Any) && Lists(ham, rows, Ham, Any)
    ensures Gathered(f, rows) == multiset(Joined(f, Spam, spam)) + multiset(Joined(f, Ham, ham))
  {
    GatheredListed(f, rows, spam, Spam);
    var rest := rows - (set m | m in spam);
    forall m ensures m in rest <==> m in ham {
      assert m in rest <==> m in rows && !Selects(rows[m], Spam, Any);
    }
    GatheredListed(f, rest, ham, Ham);
    assert rest - (set m | m in ham) == map[];
  }

  /** The documents of all rows. */
  function DocsIn(tok: Tokenizer): (Kind, string) -> seq<Document> {
    (kind: Kind, message: string) => MessageDocs(tok, kind, message)
  }

  ghost function StoreDocs(tok: Tokenizer, rows: Rows): multiset<Document> {
    Gathered(DocsIn(tok), rows)
  }

  lemma StoreDocsTake(tok: Tokenizer, rows: Rows, m: string)
    requires m in rows
    ensures StoreDocs(tok, rows) == multiset(MessageDocs(tok, rows[m].kind, m)) + StoreDocs(tok, rows - {m})
  {
    GatheredTake(DocsIn(tok), rows, m);
  }

  lemma {:induction false} JoinedDocs(tok: Tokenizer, kind: Kind, order: seq<string>)
    ensures Joined(DocsIn(tok), kind, order) == DocumentsOf(tok, ClassOf(kind), AllElements(order))
  {
    if order != [] {
      JoinedDocs(tok, kind, order[1..]);
      DocumentsAppend(tok, ClassOf(kind), Elements(order[0]), AllElements(order[1..]));
    }
  }

  /** Presets followed by user samples: no row is stored with the origin 'any'. */
  lemma BothOrigins(rows: Rows, preset: seq<string>, user: seq<string>, kind: Kind)
    requires forall m :: m in rows ==> rows[m].origin != Any
    requires Lists(preset, rows, kind, Preset) && Lists(user, rows, kind, User)
    ensures Lists(preset + user, rows, kind, Any)
  {
    var order := preset + user;
    forall i, j | 0 <= i < j < |order| ensures order[i] != order[j] {
      if i < |preset| <= j {
        assert preset[i] in preset && user[j - |preset|] in user;
      }
    }
    forall m ensures m in order <==> m in rows && Selects(rows[m], kind, Any) {
      assert m in rows ==> rows[m].origin == Preset || rows[m].origin == User;
    }
  }

  /** Samples of both kinds, read in any order, are all documents of the store. */
  lemma AllListedDocs(tok: Tokenizer, rows: Rows, spam: seq<string>, ham: seq<string>)
    requires Lists(spam, rows, Spam, Any) && Lists(ham, rows, Ham, Any)
    ensures StoreDocs(tok, rows) == multiset(DocumentsOf(tok, "spam", AllElements(spam)))
                                  + multiset(DocumentsOf(tok, "ham", AllElements(ham)))
  {
    GatheredAll(DocsIn(tok), rows, spam, ham);
    JoinedDocs(tok, Spam, spam);
    JoinedDocs(tok, Ham, ham);
  }

  // What the spam rows stand for as similarity samples: one for each element.

  function SamplesOf(tok: Tokenizer, elements: seq<string>): (maps: seq<map<Token, int>>)
    ensures |maps| == |elements| && forall i :: 0 <= i < |maps| ==> maps[i] == tok(elements[i])
  {
    seq(|elements|, i requires 0 <= i < |elements| => tok(elements[i]))
  }

  lemma SamplesAppend(tok: Tokenizer, a: seq<string>, b: seq<string>)
    ensures SamplesOf(tok, a + b) == SamplesOf(tok, a) + SamplesOf(tok, b)
  {
  }

  function SamplesIn(tok: Tokenizer): (Kind, string) -> seq<map<Token, int>> {
    (kind: Kind, message: string) => if kind.Spam? then SamplesOf(tok, Elements(message)) else []
  }

  ghost function StoreSamples(tok: Tokenizer, rows: Rows): multiset<map<Token, int>> {
    Gathered(SamplesIn(tok), rows)
  }

  lemma {:induction false} JoinedSamples(tok: Tokenizer, kind: Kind, order: seq<string>)
    ensures Joined(SamplesIn(tok), kind, order) == if kind.Spam? then SamplesOf(tok, AllElements(order)) else []
  {
    if order != [] {
      JoinedSamples(tok, kind, order[1..]);
      if kind.Spam? {
        SamplesAppend(tok, Elements(order[0]), AllElements(order[1..]));
      }
    }
  }

  lemma AllListedSamples(tok: Tokenizer, rows: Rows, spam: seq<string>, ham: seq<string>)
    requires Lists(spam, rows, Spam, Any) && Lists(ham, rows, Ham, Any)
    ensures StoreSamples(tok, rows) == multiset(SamplesOf(tok, AllElements(spam)))
  {
    GatheredAll(SamplesIn(tok), rows, spam, ham);
    JoinedSamples(tok, Spam, spam);
    JoinedSamples(tok, Ham, ham);
  }
}
