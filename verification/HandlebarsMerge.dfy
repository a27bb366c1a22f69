/**
 Executing the emitted source, and mergeSource, which turns the source array
 into a function body: runs of appended chunks become one concatenation, the
 first of them the initial value of the buffer, and a body that only appends
 has no buffer at all.
 */
module HandlebarsMerge {
  import opened HandlebarsSyntax
  import opened HandlebarsSemantics

  // ----- execution -----

  datatype Progress<V, W> = Running(buffer: string, store: Store<V, W>) | Returned(value: V, store: Store<V, W>)

  function EvalChunk<V, W>(rt: Runtime<V, W>, fr: Frame<V>, c: Chunk, s: Store<V, W>): (string, Store<V, W>) {
    match c
    case Text(text) => (text, s)
    case Escaped(e) =>
      var v := Eval(rt, fr, e, s);
      (rt.escape(v.0), v.1)
  }

  function EvalChunks<V, W>(rt: Runtime<V, W>, fr: Frame<V>, cs: seq<Chunk>, s: Store<V, W>): (string, Store<V, W>) {
    if cs == [] then ("", s)
    else
      var front := EvalChunks(rt, fr, cs[..|cs| - 1], s);
      var c := EvalChunk(rt, fr, cs[|cs| - 1], front.1);
      (front.0 + c.0, c.1)
  }

  function SetRegister<V, W>(s: Store<V, W>, r: Register, v: V): Store<V, W> {
    s.(registers := s.registers[r := v])
  }

  /** An else line follows an if line that returns, so it is reached only when the test failed. */
  function ExecLine<V, W>(rt: Runtime<V, W>, fr: Frame<V>, line: Line, buffer: string, s: Store<V, W>): Progress<V, W> {
    match line
    case Set(slot, e) =>
      var v := Eval(rt, fr, e, s);
      Running(buffer, SetRegister(v.1, Slot(slot), v.0))
    case SetUnless(test, target, e) =>
      var t := Eval(rt, fr, test, s);
      if rt.truthy(t.0) then Running(buffer, t.1)
      else
        var v := Eval(rt, fr, e, t.1);
        Running(buffer, if target.Read? then SetRegister(v.1, target.register, v.0) else v.1)
    case AppendUnlessNull(e) =>
      var v := Eval(rt, fr, e, s);
      Running(if rt.notNull(v.0) then buffer + rt.show(v.0) else buffer, v.1)
    case ReturnUnlessNull(e) =>
      var v := Eval(rt, fr, e, s);
      if rt.notNull(v.0) then Returned(v.0, v.1) else Running(buffer, v.1)
    case ElseReturnEmpty => Returned(rt.text(""), s)
    case Return(chunk) =>
      var c := EvalChunk(rt, fr, chunk, s);
      Returned(rt.text(c.0), c.1)
  }

  function ExecItem<V, W>(rt: Runtime<V, W>, fr: Frame<V>, item: Item, p: Progress<V, W>): Progress<V, W> {
    if p.Returned? then p
    else match item
      case Buffer(chunk) =>
        var c := EvalChunk(rt, fr, chunk, p.store);
        Running(p.buffer + c.0, c.1)
      case Code(line) => ExecLine(rt, fr, line, p.buffer, p.store)
  }

  /** The source array executed item by item, each chunk appended to the buffer at once. */
  function ExecItems<V, W>(rt: Runtime<V, W>, fr: Frame<V>, items: seq<Item>, p: Progress<V, W>): Progress<V, W>
    decreases items
  {
    if items == [] then p else ExecItems(rt, fr, items[1..], ExecItem(rt, fr, items[0], p))
  }

  /** ... and the buffer returned at the end. */
  function Finished<V, W>(rt: Runtime<V, W>, p: Progress<V, W>): (V, W) {
    match p
    case Running(buffer, s) => (rt.text(buffer), s.world)
    case Returned(v, s) => (v, s.world)
  }

  // ----- function bodies -----

  datatype Stmt =
    | Init(chunks: seq<Chunk>)              // buffer = chunks;
    | AppendChunks(chunks: seq<Chunk>)      // buffer += chunks;
    | Plain(line: Line)
    | ReturnChunks(chunks: seq<Chunk>)      // return chunks;
    | ReturnBuffer(chunks: seq<Chunk>)      // return buffer + chunks;

  function ExecStmt<V, W>(rt: Runtime<V, W>, fr: Frame<V>, stmt: Stmt, p: Progress<V, W>): Progress<V, W> {
    if p.Returned? then p
    else match stmt
      case Init(cs) =>
        var c := EvalChunks(rt, fr, cs, p.store);
        Running(c.0, c.1)
      case AppendChunks(cs) =>
        var c := EvalChunks(rt, fr, cs, p.store);
        Running(p.buffer + c.0, c.1)
      case Plain(line) => ExecLine(rt, fr, line, p.buffer, p.store)
      case ReturnChunks(cs) =>
        var c := EvalChunks(rt, fr, cs, p.store);
        Returned(rt.text(c.0), c.1)
      case ReturnBuffer(cs) =>
        var c := EvalChunks(rt, fr, cs, p.store);
        Returned(rt.text(p.buffer + c.0), c.1)
  }

  function ExecBody<V, W>(rt: Runtime<V, W>, fr: Frame<V>, body: seq<Stmt>, p: Progress<V, W>): Progress<V, W> {
    if body == [] then p
    else ExecStmt(rt, fr, body[|body| - 1], ExecBody(rt, fr, body[..|body| - 1], p))
  }

  /** The value of a call; a body that falls off its end yields undefined. */
  function CallBody<V, W>(rt: Runtime<V, W>, fr: Frame<V>, body: seq<Stmt>, w: W): (V, W) {
    match ExecBody(rt, fr, body, Running("", Store(map[], w)))
    case Running(_, s) => (rt.undefinedValue, s.world)
    case Returned(v, s) => (v, s.world)
  }

  // ----- mergeSource -----

  /** The chunks collected and the statements written when an item has been processed. */
  function MergeItem(item: Item, chunks: seq<Chunk>, body: seq<Stmt>): (seq<Chunk>, seq<Stmt>) {
    match item
    case Buffer(chunk) => (chunks + [chunk], body)
    case Code(line) =>
      ([], (if chunks == [] then body
            else if body == [] then [Init(chunks)]
            else body + [AppendChunks(chunks)])
           + [Plain(line)])
  }

  function MergeItems(items: seq<Item>, chunks: seq<Chunk>, body: seq<Stmt>): (seq<Chunk>, seq<Stmt>)
    decreases items
  {
    if items == [] then (chunks, body)
    else
      var m := MergeItem(items[0], chunks, body);
      MergeItems(items[1..], m.0, m.1)
  }

  predicate HasCode(items: seq<Item>) {
    exists i | 0 <= i < |items| :: items[i].Code?
  }

  function CloseBody(appendOnly: bool, chunks: seq<Chunk>, body: seq<Stmt>): seq<Stmt> {
    if appendOnly then
      if chunks != [] || body == [] then body + [ReturnChunks(chunks)] else body
    else
      (if body != [] && body[0].Init? then body else [Init([])] + body) + [ReturnBuffer(chunks)]
  }

  function Merged(isSimple: bool, items: seq<Item>): seq<Stmt> {
    var m := MergeItems(items, [], []);
    CloseBody(isSimple || !HasCode(items), m.0, m.1)
  }

  method MergeSource(isSimple: bool, source: seq<Item>) returns (body: seq<Stmt>)
    ensures body == Merged(isSimple, source)
  {
    var chunks: seq<Chunk>, appendFirst, appendOnly := [], false, true;
    body := [];
    for i := 0 to |source|
      invariant MergeItems(source, [], []) == MergeItems(source[i..], chunks, body)
      invariant appendOnly == (isSimple || !HasCode(source[..i]))
      invariant appendFirst == (body != [] && body[0].Init?)
    {
      var item := source[i];
      assert source[i..][0] == item && source[i..][1..] == source[i + 1..];
      HasCodeSnoc(source, i);
      if item.Buffer? {
        chunks := chunks + [item.chunk];
      } else {
        if chunks != [] {
          if body != [] {
            body := body + [AppendChunks(chunks)];
          } else {
            appendFirst := true;
            body := [Init(chunks)];
          }
          chunks := [];
        }
        body := body + [Plain(item.line)];
        if !isSimple {
          appendOnly := false;
        }
      }
    }
    assert source[..|source|] == source;
    if appendOnly {
      if chunks != [] || body == [] {
        body := body + [ReturnChunks(chunks)];
      }
    } else {
      body := (if appendFirst then body else [Init([])] + body) + [ReturnBuffer(chunks)];
    }
  }

  lemma {:induction false} HasCodeSnoc(items: seq<Item>, i: nat)
    requires i < |items|
    ensures HasCode(items[..i + 1]) <==> HasCode(items[..i]) || items[i].Code?
  {
    if HasCode(items[..i]) {
      var k :| 0 <= k < i && items[..i][k].Code?;
      assert items[..i + 1][k].Code?;
    } else if items[i].Code? {
      assert items[..i + 1][i].Code?;
    }
  }

  // ----- merging preserves meaning -----

  /** The collected chunks, executed as an append after the body written so far. */
  function Ahead<V, W>(rt: Runtime<V, W>, fr: Frame<V>, chunks: seq<Chunk>, body: seq<Stmt>,
                       p: Progress<V, W>): Progress<V, W> {
    ExecStmt(rt, fr, AppendChunks(chunks), ExecBody(rt, fr, body, p))
  }

  lemma {:induction false} ExecSnoc<V, W>(rt: Runtime<V, W>, fr: Frame<V>, body: seq<Stmt>, stmt: Stmt,
                                          p: Progress<V, W>)
    ensures ExecBody(rt, fr, body + [stmt], p) == ExecStmt(rt, fr, stmt, ExecBody(rt, fr, body, p))
  {
    assert (body + [stmt])[..|body|] == body;
  }

  lemma {:induction false} ChunksSnoc<V, W>(rt: Runtime<V, W>, fr: Frame<V>, cs: seq<Chunk>, c: Chunk,
                                            p: Progress<V, W>)
    ensures ExecStmt(rt, fr, AppendChunks(cs + [c]), p)
         == ExecItem(rt, fr, Buffer(c), ExecStmt(rt, fr, AppendChunks(cs), p))
  {
    assert (cs + [c])[..|cs|] == cs;
    if p.Running? {
      var front := EvalChunks(rt, fr, cs, p.store);
      var last := EvalChunk(rt, fr, c, front.1);
      assert p.buffer + (front.0 + last.0) == p.buffer + front.0 + last.0;
    }
  }

  lemma {:induction false} NoChunks<V, W>(rt: Runtime<V, W>, fr: Frame<V>, p: Progress<V, W>)
    ensures ExecStmt(rt, fr, AppendChunks([]), p) == p
  {
    if p.Running? {
      assert p.buffer + "" == p.buffer;
    }
  }

  lemma {:induction false} MergeItemMeaning<V, W>(rt: Runtime<V, W>, fr: Frame<V>, item: Item, chunks: seq<Chunk>,
                                                  body: seq<Stmt>, p: Progress<V, W>)
    requires p.Running? && p.buffer == ""
    ensures var m := MergeItem(item, chunks, body);
            Ahead(rt, fr, m.0, m.1, p) == ExecItem(rt, fr, item, Ahead(rt, fr, chunks, body, p))
  {
    match item
    case Buffer(chunk) =>
      ChunksSnoc(rt, fr, chunks, chunk, ExecBody(rt, fr, body, p));
    case Code(line) =>
      var flushed := if chunks == [] then body
                     else if body == [] then [Init(chunks)]
                     else body + [AppendChunks(chunks)];
      assert ExecBody(rt, fr, flushed, p) == Ahead(rt, fr, chunks, body, p) by {
        if chunks == [] {
          NoChunks(rt, fr, ExecBody(rt, fr, body, p));
        } else if body == [] {
          assert [Init(chunks)][..0] == [];
          var c := EvalChunks(rt, fr, chunks, p.store);
          assert "" + c.0 == c.0;
        } else {
          ExecSnoc(rt, fr, body, AppendChunks(chunks), p);
        }
      }
      ExecSnoc(rt, fr, flushed, Plain(line), p);
      NoChunks(rt, fr, ExecBody(rt, fr, flushed + [Plain(line)], p));
  }

  lemma {:induction false} MergeItemsMeaning<V, W>(rt: Runtime<V, W>, fr: Frame<V>, items: seq<Item>,
                                                   chunks: seq<Chunk>, body: seq<Stmt>, p: Progress<V, W>)
    requires p.Running? && p.buffer == ""
    ensures var m := MergeItems(items, chunks, body);
            Ahead(rt, fr, m.0, m.1, p) == ExecItems(rt, fr, items, Ahead(rt, fr, chunks, body, p))
    decreases items
  {
    if items != [] {
      var m := MergeItem(items[0], chunks, body);
      MergeItemMeaning(rt, fr, items[0], chunks, body, p);
      MergeItemsMeaning(rt, fr, items[1..], m.0, m.1, p);
    }
  }

  /** Starting from an empty buffer, an explicit initialisation to it changes nothing. */
  lemma {:induction false} ExecInit<V, W>(rt: Runtime<V, W>, fr: Frame<V>, body: seq<Stmt>, p: Progress<V, W>)
    requires p.Running? && p.buffer == ""
    ensures ExecBody(rt, fr, [Init([])] + body, p) == ExecBody(rt, fr, body, p)
  {
    var init := [Init([])];
    if body == [] {
      assert init + body == init && init[..0] == [];
    } else {
      var last := |body| - 1;
      ExecInit(rt, fr, body[..last], p);
      assert init + body == init + body[..last] + [body[last]];
      ExecSnoc(rt, fr, init + body[..last], body[last], p);
    }
  }

  lemma {:induction false} NoCodeNoBody(items: seq<Item>, chunks: seq<Chunk>)
    requires !HasCode(items)
    ensures MergeItems(items, chunks, []).1 == []
    decreases items
  {
    if items != [] {
      assert items[0].Buffer?;
      assert !HasCode(items[1..]) by {
        forall i | 0 <= i < |items[1..]|
          ensures items[1..][i].Buffer?
        {
          assert items[1..][i] == items[i + 1];
        }
      }
      NoCodeNoBody(items[1..], chunks + [items[0].chunk]);
    }
  }

  /** A body that ends by returning the buffer. */
  lemma {:induction false} CloseWithBuffer<V, W>(rt: Runtime<V, W>, fr: Frame<V>, chunks: seq<Chunk>, body: seq<Stmt>,
                                                 w: W)
    ensures CallBody(rt, fr, CloseBody(false, chunks, body), w)
         == Finished(rt, Ahead(rt, fr, chunks, body, Running("", Store(map[], w))))
  {
    var p: Progress<V, W> := Running("", Store(map[], w));
    var whole := if body != [] && body[0].Init? then body else [Init([])] + body;
    ExecInit(rt, fr, body, p);
    ExecSnoc(rt, fr, whole, ReturnBuffer(chunks), p);
  }

  /** A body that only returns what was collected. */
  lemma {:induction false} CloseWithChunks<V, W>(rt: Runtime<V, W>, fr: Frame<V>, chunks: seq<Chunk>, w: W)
    ensures CallBody(rt, fr, CloseBody(true, chunks, []), w)
         == Finished(rt, Ahead(rt, fr, chunks, [], Running("", Store(map[], w))))
  {
    var p: Progress<V, W> := Running("", Store(map[], w));
    ExecSnoc(rt, fr, [], ReturnChunks(chunks), p);
    assert "" + EvalChunks(rt, fr, chunks, p.store).0 == EvalChunks(rt, fr, chunks, p.store).0;
  }

  /** For every source array, the merged body computes what the array does item by item. */
  lemma {:induction false} MergedMeaning<V, W>(rt: Runtime<V, W>, fr: Frame<V>, items: seq<Item>, w: W)
    ensures CallBody(rt, fr, Merged(false, items), w)
         == Finished(rt, ExecItems(rt, fr, items, Running("", Store(map[], w))))
  {
    var p: Progress<V, W> := Running("", Store(map[], w));
    var (chunks, body) := MergeItems(items, [], []);
    MergeItemsMeaning(rt, fr, items, [], [], p);
    NoChunks(rt, fr, p);
    if HasCode(items) {
      CloseWithBuffer(rt, fr, chunks, body, w);
    } else {
      NoCodeNoBody(items, []);
      CloseWithChunks(rt, fr, chunks, w);
    }
  }

  lemma {:induction false} AllCodeNoChunks(items: seq<Item>, body: seq<Stmt>)
    requires forall i | 0 <= i < |items| :: items[i].Code?
    ensures MergeItems(items, [], body).0 == []
    ensures items != [] ==> MergeItems(items, [], body).1 != []
    decreases items
  {
    if items != [] {
      var m := MergeItem(items[0], [], body);
      AllCodeNoChunks(items[1..], m.1);
    }
  }

  /** In a program of one statement every item is a line of code, and one of them returns. */
  lemma {:induction false} MergedSimpleMeaning<V, W>(rt: Runtime<V, W>, fr: Frame<V>, items: seq<Item>, w: W)
    requires forall i | 0 <= i < |items| :: items[i].Code?
    requires items == [] || ExecItems(rt, fr, items, Running("", Store(map[], w))).Returned?
    ensures CallBody(rt, fr, Merged(true, items), w)
         == Finished(rt, ExecItems(rt, fr, items, Running("", Store(map[], w))))
  {
    var p: Progress<V, W> := Running("", Store(map[], w));
    var (chunks, body) := MergeItems(items, [], []);
    MergeItemsMeaning(rt, fr, items, [], [], p);
    NoChunks(rt, fr, p);
    AllCodeNoChunks(items, []);
    if items == [] {
      ExecSnoc(rt, fr, [], ReturnChunks([]), p);
      assert [] + [ReturnChunks([])] == [ReturnChunks([])];
    } else {
      NoChunks(rt, fr, ExecBody(rt, fr, body, p));
    }
  }

  lemma {:induction false} ExecConcat<V, W>(rt: Runtime<V, W>, fr: Frame<V>, a: seq<Item>, b: seq<Item>,
                                            p: Progress<V, W>)
    ensures ExecItems(rt, fr, a + b, p) == ExecItems(rt, fr, b, ExecItems(rt, fr, a, p))
    decreases a
  {
    if a == [] {
      assert a + b == b;
    } else {
      assert (a + b)[1..] == a[1..] + b;
      ExecConcat(rt, fr, a[1..], b, ExecItem(rt, fr, a[0], p));
    }
  }

  lemma {:induction false} ExecSingle<V, W>(rt: Runtime<V, W>, fr: Frame<V>, item: Item, p: Progress<V, W>)
    ensures ExecItems(rt, fr, [item], p) == ExecItem(rt, fr, item, p)
  {
    assert [item][1..] == [];
  }
}
