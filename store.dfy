/** The JSON-file-backed record store shared by the inventory, hospital,
    finance and employee scripts: what loading the backing file yields, the
    field values a record is serialised to, and the rule that every record id
    is unique and below the counter that hands out the next one. */
module Store {

  datatype Option<+T> = None | Some(value: T)

  /** What reading a backing file can give. The file system and the JSON
      decoder are not modelled, only their outcome: the file is absent, it has
      size zero, its content is not valid JSON, or it decodes to a document. */
  datatype StoredFile<+T> = Missing | Empty | Corrupted | Parsed(doc: T)

  /** The shared `_load_data` policy: the decoded document, or the default
      skeleton when the file is absent, empty or corrupted. Each script states
      its own skeleton in its own `LoadData`. */
  function Load<T>(f: StoredFile<T>, skeleton: T): (d: T)
    ensures f.Parsed? ==> d == f.doc
    ensures !f.Parsed? ==> d == skeleton
  {
    if f.Parsed? then f.doc else skeleton
  }

  /** A scalar JSON value of a serialised record (numbers are whole cents or
      whole counts in this model). */
  datatype Value = Int(i: int) | Str(s: string)

  /** A serialised record: the dictionary that `to_dict` produces. */
  type Record = map<string, Value>

  /** `f` applied to every element: the ids of a record list, or the
      dictionaries a list of records is saved as. */
  function MapSeq<T, U>(xs: seq<T>, f: T -> U): (ys: seq<U>)
    ensures |ys| == |xs| && forall i :: 0 <= i < |xs| ==> ys[i] == f(xs[i])
  {
    seq(|xs|, i requires 0 <= i < |xs| => f(xs[i]))
  }

  /** Rebuilding every saved record of a list with `decode`, one constructor
      call per record: the list of results when every record rebuilds,
      nothing (the constructor's TypeError) as soon as one does not. */
  function DecodeAll<T>(rs: seq<Record>, decode: Record -> Option<T>): (r: Option<seq<T>>)
    ensures r.Some? <==> forall i :: 0 <= i < |rs| ==> decode(rs[i]).Some?
    ensures r.Some? ==> |r.value| == |rs| && forall i :: 0 <= i < |rs| ==> decode(rs[i]) == Some(r.value[i])
  {
    if rs == [] then Some([])
    else match decode(rs[0])
      case None => None
      case Some(x) =>
        match DecodeAll(rs[1..], decode)
        case None =>
          assert exists i :: 1 <= i < |rs| && decode(rs[i]).None? by {
            var k :| 0 <= k < |rs[1..]| && decode(rs[1..][k]).None?;
            assert rs[1..][k] == rs[k + 1];
          }
          None
        case Some(xs) =>
          assert forall i :: 1 <= i < |rs| ==> rs[i] == rs[1..][i - 1];
          Some([x] + xs)
  }

  /** Every id is unique and strictly below the counter that hands out the
      next one. */
  ghost predicate UniqueBelow(ids: seq<int>, next: int)
  {
    && (forall i :: 0 <= i < |ids| ==> ids[i] < next)
    && (forall i, j :: 0 <= i < j < |ids| ==> ids[i] != ids[j])
  }

  /** Handing out the counter's value as the id of an appended record and then
      incrementing the counter keeps ids unique and below the counter. */
  lemma FreshIdKeepsUnique(ids: seq<int>, next: int)
    requires UniqueBelow(ids, next)
    ensures UniqueBelow(ids + [next], next + 1)
  {
  }
}
