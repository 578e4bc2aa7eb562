/** chunkText, and the join of stored chunks with their embeddings. */
module Chunking {
  import opened Prelude
  import opened Text
  import opened FieldNames

  const CHUNK_SIZE: nat := 800

  datatype Chunk = Chunk(id: string, text: string, index: nat)

  /** trim leaves nothing exactly of blank text. */
  lemma {:induction false} TrimsToNothing(s: string)
    ensures Trim(s) == "" <==> Blank(s)
    decreases |s|
  {
    if s != "" {
      if IsSpace(s[0]) {
        TrimsToNothing(s[1..]);
        assert forall i :: 0 < i < |s| ==> s[i] == s[1..][i - 1];
      } else {
        KeepsFirst(s);
      }
    }
  }

  lemma {:induction false} KeepsFirst(s: string)
    requires s != "" && !IsSpace(s[0])
    ensures TrimEnd(s) != ""
    decreases |s|
  {
    if IsSpace(s[|s| - 1]) {
      KeepsFirst(s[..|s| - 1]);
    }
  }

  function End(text: string, i: nat): nat {
    if i + CHUNK_SIZE < |text| then i + CHUNK_SIZE else |text|
  }

  /** The slices of the text from position i on that are not blank. */
  function Slices(text: string, i: nat): seq<string>
    decreases |text| - i
  {
    if i >= |text| then []
    else
      var slice := text[i..End(text, i)];
      (if Blank(slice) then [] else [slice]) + Slices(text, i + CHUNK_SIZE)
  }

  /** Numbered in order. */
  function Numbered(slices: seq<string>): (r: seq<Chunk>)
    ensures |r| == |slices| && forall i :: 0 <= i < |r| ==> r[i] == Chunk(Digits(i), slices[i], i)
  {
    seq(|slices|, i requires 0 <= i < |slices| => Chunk(Digits(i), slices[i], i))
  }

  method ChunkText(text: string) returns (chunks: seq<Chunk>)
    ensures chunks == Numbered(Slices(text, 0))
  {
    chunks := [];
    var idx, i := 0, 0;
    ghost var done: seq<string> := [];
    while i < |text|
      invariant 0 <= i && idx == |done| && chunks == Numbered(done)
      invariant done + Slices(text, i) == Slices(text, 0)
    {
      var slice := text[i..End(text, i)];
      TrimsToNothing(slice);
      if Trim(slice) != "" {
        chunks := chunks + [Chunk(Digits(idx), slice, idx)];
        assert done + ([slice] + Slices(text, i + CHUNK_SIZE)) == (done + [slice]) + Slices(text, i + CHUNK_SIZE);
        done := done + [slice];
        idx := idx + 1;
      } else {
        assert [] + Slices(text, i + CHUNK_SIZE) == Slices(text, i + CHUNK_SIZE);
      }
      i := i + CHUNK_SIZE;
    }
    assert done + [] == done;
  }

  // -- what the chunks hold --

  /** The characters that are not white space, in order. */
  function Inked(s: string): string {
    if s == "" then "" else (if IsSpace(s[0]) then "" else [s[0]]) + Inked(s[1..])
  }

  function Joined(slices: seq<string>): string {
    if slices == [] then "" else slices[0] + Joined(slices[1..])
  }

  lemma {:induction false} InkedConcat(a: string, b: string)
    ensures Inked(a + b) == Inked(a) + Inked(b)
  {
    if a == "" {
      assert a + b == b;
    } else {
      InkedConcat(a[1..], b);
      assert (a + b)[1..] == a[1..] + b;
      var head := if IsSpace(a[0]) then "" else [a[0]];
      assert head + (Inked(a[1..]) + Inked(b)) == (head + Inked(a[1..])) + Inked(b);
    }
  }

  lemma {:induction false} BlankHasNoInk(s: string)
    ensures Blank(s) <==> Inked(s) == ""
  {
    if s != "" {
      BlankHasNoInk(s[1..]);
      assert forall i :: 0 < i < |s| ==> s[i] == s[1..][i - 1];
      assert forall i :: 0 <= i < |s[1..]| ==> s[1..][i] == s[i + 1];
    }
  }

  lemma {:induction false} SlicesKeepInk(text: string, i: nat)
    requires i <= |text|
    ensures Inked(Joined(Slices(text, i))) == Inked(text[i..])
    decreases |text| - i
  {
    if i < |text| {
      var end := End(text, i);
      var slice, rest := text[i..end], Slices(text, i + CHUNK_SIZE);
      assert text[i..] == slice + text[end..];
      InkedConcat(slice, text[end..]);
      SlicesKeepInk(text, end);
      assert rest == Slices(text, end);
      if Blank(slice) {
        BlankHasNoInk(slice);
        assert [] + rest == rest;
      } else {
        assert ([slice] + rest)[1..] == rest;
        InkedConcat(slice, Joined(rest));
      }
    }
  }

  lemma {:induction false} SliceSizes(text: string, i: nat)
    ensures forall k :: 0 <= k < |Slices(text, i)| ==>
                          0 < |Slices(text, i)[k]| <= CHUNK_SIZE && !Blank(Slices(text, i)[k])
    decreases |text| - i
  {
    if i < |text| {
      SliceSizes(text, i + CHUNK_SIZE);
    }
  }

  function Texts(chunks: seq<Chunk>): (r: seq<string>)
    ensures |r| == |chunks| && forall i :: 0 <= i < |r| ==> r[i] == chunks[i].text
  {
    seq(|chunks|, i requires 0 <= i < |chunks| => chunks[i].text)
  }

  /** No character but white space is lost or moved; every chunk has at most 800 characters,
      one of them not blank, and chunk i has index i. */
  lemma {:induction false} ChunksHoldTheText(text: string)
    ensures
      var chunks := Numbered(Slices(text, 0));
      && Inked(Joined(Texts(chunks))) == Inked(text)
      && forall i :: 0 <= i < |chunks| ==>
                       0 < |chunks[i].text| <= CHUNK_SIZE && !Blank(chunks[i].text) && chunks[i].index == i
  {
    var slices := Slices(text, 0);
    SlicesKeepInk(text, 0);
    SliceSizes(text, 0);
    assert text[0..] == text;
    assert Texts(Numbered(slices)) == slices;
  }

  // -- storing chunks with their embeddings --

  datatype Embedded<V> = Embedded(chunkId: string, vector: V)

  datatype ChunkRow = ChunkRow(chunkId: nat, text: string, index: nat)

  datatype VectorRow<V> = VectorRow(chunkId: nat, vector: V)

  /** The first embedding with the id. */
  function Find<V>(embeddings: seq<Embedded<V>>, id: string): Option<V> {
    if embeddings == [] then None
    else if embeddings[0].chunkId == id then Some(embeddings[0].vector)
    else Find(embeddings[1..], id)
  }

  class Tables<V(!new)> {
    var chunks: seq<ChunkRow>
    var vectors: seq<VectorRow<V>>

    constructor ()
      ensures chunks == [] && vectors == []
    {
      chunks, vectors := [], [];
    }

    /** storeChunksAndEmbeddings, with `ids` the row ids that randomUUID draws. */
    method StoreChunksAndEmbeddings(ids: seq<nat>, input: seq<Chunk>, embeddings: seq<Embedded<V>>)
      requires |ids| == |input|
      modifies this
      ensures chunks == old(chunks) + RowsOf(ids, input)
      ensures vectors == old(vectors) + VectorsOf(ids, input, embeddings)
    {
      assert old(chunks) + [] == old(chunks) && old(vectors) + [] == old(vectors);
      for i := 0 to |input|
        invariant chunks == old(chunks) + RowsOf(ids[..i], input[..i])
        invariant vectors == old(vectors) + VectorsOf(ids[..i], input[..i], embeddings)
      {
        var chunk := input[i];
        assert ids[..i + 1][..i] == ids[..i] && input[..i + 1][..i] == input[..i];
        chunks := chunks + [ChunkRow(ids[i], chunk.text, chunk.index)];
        var embedding := Find(embeddings, chunk.id);
        if embedding == None {
          continue;
        }
        vectors := vectors + [VectorRow(ids[i], embedding.value)];
      }
      assert ids[..|input|] == ids && input[..|input|] == input;
    }
  }

  function RowsOf(ids: seq<nat>, chunks: seq<Chunk>): seq<ChunkRow>
    requires |ids| == |chunks|
  {
    if chunks == [] then []
    else
      var k := |chunks| - 1;
      RowsOf(ids[..k], chunks[..k]) + [ChunkRow(ids[k], chunks[k].text, chunks[k].index)]
  }

  function VectorsOf<V>(ids: seq<nat>, chunks: seq<Chunk>, embeddings: seq<Embedded<V>>): seq<VectorRow<V>>
    requires |ids| == |chunks|
  {
    if chunks == [] then []
    else
      var k := |chunks| - 1;
      var own := Find(embeddings, chunks[k].id);
      VectorsOf(ids[..k], chunks[..k], embeddings) + if own.Some? then [VectorRow(ids[k], own.value)] else []
  }

  function EmbedAll<V>(embed: string -> V, chunks: seq<Chunk>): (r: seq<Embedded<V>>)
    ensures |r| == |chunks| && forall i :: 0 <= i < |r| ==> r[i] == Embedded(chunks[i].id, embed(chunks[i].text))
  {
    seq(|chunks|, i requires 0 <= i < |chunks| => Embedded(chunks[i].id, embed(chunks[i].text)))
  }

  /** embedChunks, for any embedding function. */
  method EmbedChunks<V>(embed: string -> V, chunks: seq<Chunk>) returns (results: seq<Embedded<V>>)
    ensures results == EmbedAll(embed, chunks)
  {
    results := [];
    for i := 0 to |chunks|
      invariant |results| == i
      invariant forall j :: 0 <= j < i ==> results[j] == Embedded(chunks[j].id, embed(chunks[j].text))
    {
      results := results + [Embedded(chunks[i].id, embed(chunks[i].text))];
    }
  }

  lemma {:induction false} FindOnly<V(!new)>(embeddings: seq<Embedded<V>>, id: string, v: V)
    requires Embedded(id, v) in embeddings
    requires forall e :: e in embeddings && e.chunkId == id ==> e.vector == v
    ensures Find(embeddings, id) == Some(v)
  {
    assert embeddings == [embeddings[0]] + embeddings[1..];
    assert embeddings[0] in embeddings;
    if embeddings[0].chunkId != id {
      FindOnly(embeddings[1..], id, v);
    }
  }

  lemma DigitsDiffer(i: nat, j: nat)
    requires Digits(i) == Digits(j)
    ensures i == j
  {
    ParseDigits(i);
    ParseDigits(j);
  }

  /** Chunk i finds its own embedding, in whatever order the embeddings come. */
  lemma FindsOwn<V(!new)>(embed: string -> V, slices: seq<string>, embeddings: seq<Embedded<V>>, i: nat)
    requires i < |slices|
    requires multiset(embeddings) == multiset(EmbedAll(embed, Numbered(slices)))
    ensures Find(embeddings, Numbered(slices)[i].id) == Some(embed(slices[i]))
  {
    var chunks := Numbered(slices);
    var all := EmbedAll(embed, chunks);
    forall e | e in embeddings && e.chunkId == chunks[i].id ensures e.vector == embed(slices[i]) {
      assert e in multiset(embeddings);
      assert e in all;
      var j :| 0 <= j < |all| && all[j] == e;
      DigitsDiffer(i, j);
    }
    assert all[i] in multiset(all);
    assert all[i] in embeddings;
    FindOnly(embeddings, chunks[i].id, embed(slices[i]));
  }

  lemma {:induction false} OwnVectors<V(!new)>(embed: string -> V, ids: seq<nat>, chunks: seq<Chunk>,
                                               embeddings: seq<Embedded<V>>)
    requires |ids| == |chunks|
    requires forall i :: 0 <= i < |chunks| ==> Find(embeddings, chunks[i].id) == Some(embed(chunks[i].text))
    ensures |VectorsOf(ids, chunks, embeddings)| == |chunks|
    ensures forall i :: 0 <= i < |chunks| ==>
                          VectorsOf(ids, chunks, embeddings)[i] == VectorRow(ids[i], embed(chunks[i].text))
    decreases |chunks|
  {
    if chunks != [] {
      var k := |chunks| - 1;
      OwnVectors(embed, ids[..k], chunks[..k], embeddings);
    }
  }

  /** Each stored chunk gets exactly its own embedding. */
  lemma {:induction false} EachChunkGetsItsOwn<V(!new)>(embed: string -> V, text: string, ids: seq<nat>,
                                                        embeddings: seq<Embedded<V>>)
    requires |ids| == |Slices(text, 0)|
    requires multiset(embeddings) == multiset(EmbedAll(embed, Numbered(Slices(text, 0))))
    ensures
      var chunks := Numbered(Slices(text, 0));
      && |VectorsOf(ids, chunks, embeddings)| == |chunks|
      && forall i :: 0 <= i < |chunks| ==>
                       VectorsOf(ids, chunks, embeddings)[i] == VectorRow(ids[i], embed(chunks[i].text))
  {
    var slices := Slices(text, 0);
    forall i | 0 <= i < |slices| ensures Find(embeddings, Numbered(slices)[i].id) == Some(embed(slices[i])) {
      FindsOwn(embed, slices, embeddings, i);
    }
    OwnVectors(embed, ids, Numbered(slices), embeddings);
  }
}
