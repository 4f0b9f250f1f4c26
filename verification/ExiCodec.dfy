/** Writer and reader on one buffer: a document goes out as bytes and comes back. */
module ExiCodec {
  import opened Words
  import opened BitStream
  import opened ExiValueProofs
  import opened ExiSchema
  import opened ExiDocument
  import opened ExiRoundTrip
  import opened ExiOutput
  import opened ExiParse

  /**
   Writes an object into a fresh buffer and parses the bytes. What comes back is the
   object itself, but for optional Booleans and empty strings (`NodeBack`).
   */
  method WriteAndRead(sc: Schema, kind: nat, node: Node, size: nat, ghost owner: Owner) returns (ok: bool, kind': nat, node': Node)
    requires WellFormed(sc) && kind < sc.length && GlobalRow(sc, kind) && Shaped(sc, sc.rows[kind], node)
    requires OwnedNode(sc, sc.rows[kind], node, owner)
    requires |EncodeDoc(sc, kind, node).bits| + 96 <= 8 * size && size < MAX_BYTES
    ensures ok <==> Complete(sc, sc.rows[kind], node, MAX_STACK - 1) && ExactNode(sc, sc.rows[kind], node)
    ensures ok ==> kind' == kind && node' == NodeBack(sc, sc.rows[kind], node)
    ensures ok ==> (node' == node <==> Kept(sc, sc.rows[kind], node))
  {
    hide EncodeDoc, DecodeDoc, ExactNode, NodeBack, Kept, Complete, Shaped, OwnedNode;
    var w := new BitWriter(size);
    var o := new Output(sc, w);
    assert w.Written() == [];
    ok := o.OutputDoc(node, kind);
    DocumentWritten(sc, kind, node);
    kind', node' := kind, node;
    if ok {
      var end := if w.bit > 0 then w.ptr + 1 else w.ptr;
      WrittenIsRead(w.buf[..], w.ptr, w.bit, end);
      assert w.buf[..][..end] == w.buf[..end];
      assert [] + EncodeDoc(sc, kind, node).bits == EncodeDoc(sc, kind, node).bits;
      var r := new BitReader(w.buf, end);
      var p := new Parser(sc, r);
      NoStrings(0);
      DocumentRoundTrip(r.Input(), 0, sc, kind, node, owner);
      KeptNode(sc, sc.rows[kind], node);
      ok, kind', node' := p.ParseDoc();
    }
  }
}
