/** src/file_index.rs: the index of a file (a column), 0 for 'a' up to 7 for 'h'. */
module FileIndices {

  import opened Wrappers

  /** A file index; `FileIndex::new` refuses anything above 7. */
  type FileIndex = i: nat | i <= 7

  /** `FileIndex::new`: `None` stands for the failed assertion. */
  function NewFileIndex(index: nat): (r: Option<FileIndex>)
    ensures r.Some? <==> index <= 7
    ensures r.Some? ==> Get(r.value) == index
  {
    if index <= 7 then Some(index) else None
  }

  /** `FileIndex::get`. */
  function Get(fileIndex: FileIndex): (index: nat)
    ensures index <= 7
    ensures index == fileIndex
  {
    fileIndex
  }

  /** Two file indices made from the same number read back the same. */
  lemma SameIndexSameGet(a: nat, b: nat)
    requires a <= 7 && a == b
    ensures NewFileIndex(a).Some? && NewFileIndex(b).Some?
    ensures Get(NewFileIndex(a).value) == Get(NewFileIndex(b).value)
  {
  }

  /** `get_all_file_indices`: the eight files in order. */
  function GetAllFileIndices(): (indices: seq<FileIndex>)
    ensures |indices| == 8
    ensures forall i :: 0 <= i < |indices| ==> Get(indices[i]) == i
  {
    [0, 1, 2, 3, 4, 5, 6, 7]
  }

  /** Every file occurs in the enumeration exactly once. */
  lemma AllFileIndicesEnumerateOnce(f: FileIndex)
    ensures f in GetAllFileIndices()
    ensures forall i, j :: 0 <= i < j < 8 ==> GetAllFileIndices()[i] != GetAllFileIndices()[j]
  {
    assert GetAllFileIndices()[f] == f;
  }
}
