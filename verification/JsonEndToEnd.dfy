/** Printing a stored tree and parsing the printed buffer, on the nodes and the bytes themselves. */
module JsonEndToEnd {
  import opened Bytes
  import opened Json
  import opened JsonRoundTrip
  import opened CMemory
  import opened CListBuild
  import opened CHeap
  import opened ParseBuffers
  import opened PrintBuffers
  import opened CCompare

  /**
   `cJSON_Parse(cJSON_Print(item))`: when the text fits and the nesting is at most
   1000 deep, a second tree in new memory with the value of the first as C readers
   see it; otherwise NULL and the memory as it was.
   */
  method PrintAndParse(heap: Heap, item: Ptr, ghost t: Tree, ghost next: Ptr, format: bool)
    returns (copy: Ptr, ghost u: Tree)
    requires item != NULL ==> HeldAt(heap.mem, t, next) && item == t.ptr && Printable(ValueOf(t))
    modifies heap
    ensures copy != NULL <==>
            item != NULL && Typed(t) && |Text(ValueOf(t), 0, format)| + 2 <= INT_MAX &&
            Depth(ValueOf(t)) <= NESTING_LIMIT
    ensures copy == NULL ==> heap.mem == old(heap.mem)
    ensures copy != NULL ==>
      u.ptr == copy && ValueOf(u) == Cut(ValueOf(t)) && Normal(ValueOf(u)) == Normal(ValueOf(t)) &&
      Fresh(old(heap.mem), heap.mem, [u]) && HeldAt(heap.mem, u, NULL) && Linked(heap.mem, u.kids)
  {
    hide HeldAt, Text, ValueOf, Typed, Printable, Depth, Cut, ParseText, Fresh, Linked, Normal;
    copy, u := NULL, Leaf(NULL);
    var text := Print(heap.mem, item, t, next, format);
    if text == null { return; }
    var end: nat;
    RoundTrip(text[..], ValueOf(t), format, false) by { PrintedTerminated(ValueOf(t), format); }
    CutNormal(ValueOf(t));
    copy, end, u := Parse(text[..], heap, false);
  }

  lemma {:induction false} PrintedTerminated(v: Json, format: bool)
    ensures Terminated(Text(v, 0, format) + [0], Text(v, 0, format))
  {
  }
}
