/** Splitting a nested batch along one dimension and concatenating the parts again. */
module NestedDict {
  import opened Options
  import opened Reordering
  import opened Sequences

  /** A tensor or an array is its slices along the split dimension; a list has dimension 0 only. */
  datatype Value =
    | Tensor(rows: seq<int>)
    | Array(rows: seq<int>)
    | List(items: seq<int>)
    | Dict(entries: Batch)
    | NoneValue
    | Other(x: int)

  /** A dictionary, in insertion order. */
  datatype Batch = Empty | Entry(key: string, value: Value, rest: Batch)

  datatype Error = AssertionError | ValueError | KeyError | TypeError

  datatype Outcome<+T> = Ok(value: T) | Error(error: Error)

  ghost predicate KeyIn(b: Batch, key: string) {
    b.Entry? && (b.key == key || KeyIn(b.rest, key))
  }

  /** No dictionary, nested ones included, has a key twice. */
  ghost predicate WellFormed(b: Batch) {
    b.Entry? ==> !KeyIn(b.rest, b.key) && WellFormed(b.rest) && WellFormedValue(b.value)
  }

  ghost predicate WellFormedValue(v: Value) {
    v.Dict? ==> WellFormed(v.entries)
  }

  // ---------- splitting ----------

  function Wrap(wrap: seq<int> -> Value, pieces: seq<seq<int>>): (r: seq<Value>)
    ensures |r| == |pieces| && forall i :: 0 <= i < |r| ==> r[i] == wrap(pieces[i])
  {
    Map(wrap, pieces)
  }

  function Dicts(parts: seq<Batch>): (r: seq<Value>)
    ensures |r| == |parts| && forall i :: 0 <= i < |r| ==> r[i] == Dict(parts[i])
  {
    seq(|parts|, i requires 0 <= i < |parts| => Dict(parts[i]))
  }

  lemma {:induction false} SplitBySizesCount<T>(xs: seq<T>, at: nat, sizes: seq<nat>)
    ensures |SplitBySizes(xs, at, sizes)| == |sizes|
    decreases |sizes|
  {
    if sizes == [] {
    } else {
      SplitBySizesCount(xs, at + sizes[0], sizes[1..]);
    }
  }

  /** The pieces of a tensor or list value, if its length is the total of the sizes. */
  function Pieced(xs: seq<int>, sizes: seq<nat>, wrap: seq<int> -> Value): (r: Outcome<seq<Value>>)
    ensures r.Ok? ==> |r.value| == |sizes|
  {
    SplitBySizesCount(xs, 0, sizes);
    if |xs| == Sum(sizes) then Ok(Wrap(wrap, SplitBySizes(xs, 0, sizes))) else Error(AssertionError)
  }

  function SplitValue(v: Value, sizes: seq<nat>, dim: int): (r: Outcome<seq<Value>>)
    ensures r.Ok? ==> |r.value| == |sizes|
    decreases v
  {
    match v
    case Tensor(rows) => Pieced(rows, sizes, xs => Tensor(xs))
    case List(items) => if dim != 0 then Error(AssertionError) else Pieced(items, sizes, xs => List(xs))
    case Dict(entries) =>
      var parts := Split(entries, sizes, dim);
      if parts.Ok? then Ok(Dicts(parts.value)) else Error(parts.error)
    case _ => Ok(seq(|sizes|, i => v))
  }

  /** Every part with one more entry in front. */
  function Extend(key: string, vs: seq<Value>, parts: seq<Batch>): (r: seq<Batch>)
    requires |vs| == |parts|
    ensures |r| == |parts| && forall i :: 0 <= i < |r| ==> r[i] == Entry(key, vs[i], parts[i])
  {
    seq(|parts|, i requires 0 <= i < |parts| => Entry(key, vs[i], parts[i]))
  }

  /** `split_dict`. */
  function Split(b: Batch, sizes: seq<nat>, dim: int): (r: Outcome<seq<Batch>>)
    ensures r.Ok? ==> |r.value| == |sizes|
    decreases b
  {
    match b
    case Empty => Ok(seq(|sizes|, i => Empty))
    case Entry(key, value, rest) =>
      var vs := SplitValue(value, sizes, dim);
      if vs.Error? then Error(vs.error)
      else
        var parts := Split(rest, sizes, dim);
        if parts.Error? then parts else Ok(Extend(key, vs.value, parts.value))
  }

  // ---------- which rows a part holds ----------

  lemma {:induction false} SplitBySizesAt<T>(xs: seq<T>, at: nat, sizes: seq<nat>, i: nat)
    requires i < |sizes| && at + Sum(sizes) <= |xs|
    ensures |SplitBySizes(xs, at, sizes)| == |sizes|
    ensures 0 <= Sum(sizes[..i]) && at + Sum(sizes[..i]) + sizes[i] <= |xs|
    ensures SplitBySizes(xs, at, sizes)[i] == xs[at + Sum(sizes[..i])..at + Sum(sizes[..i]) + sizes[i]]
    decreases |sizes|
  {
    SplitBySizesCount(xs, at, sizes);
    SumOfSizes(sizes[1..]);
    if i == 0 {
      assert sizes[..0] == [];
    } else {
      SplitBySizesAt(xs, at + sizes[0], sizes[1..], i - 1);
      assert sizes[..i] == [sizes[0]] + sizes[1..][..i - 1];
      assert sizes[..i][1..] == sizes[1..][..i - 1];
    }
  }

  /** The part has the keys of the batch, and under each the same piece of the value. */
  ghost predicate PieceOf(b: Batch, part: Batch, from: nat, size: nat) {
    match b
    case Empty => part == Empty
    case Entry(key, value, rest) =>
      part.Entry? && part.key == key && PieceOfValue(value, part.value, from, size) &&
      PieceOf(rest, part.rest, from, size)
  }

  /** Rows from to from + size of a tensor or list, a piece of a dictionary, or a copy of anything else. */
  ghost predicate PieceOfValue(v: Value, piece: Value, from: nat, size: nat) {
    match v
    case Tensor(rows) => from + size <= |rows| && piece == Tensor(rows[from..from + size])
    case List(items) => from + size <= |items| && piece == List(items[from..from + size])
    case Dict(entries) => piece.Dict? && PieceOf(entries, piece.entries, from, size)
    case _ => piece == v
  }

  /** Part i holds sizes[i] rows of every tensor and list, nested ones included, after those of the earlier parts. */
  lemma {:induction false} SplitPart(b: Batch, sizes: seq<nat>, dim: int, i: nat)
    requires Split(b, sizes, dim).Ok? && i < |sizes|
    ensures 0 <= Sum(sizes[..i]) && PieceOf(b, Split(b, sizes, dim).value[i], Sum(sizes[..i]), sizes[i])
    decreases b
  {
    hide SplitValue;
    hide PieceOfValue;
    SumOfSizes(sizes[..i]);
    if b.Entry? {
      SplitValuePart(b.value, sizes, dim, i);
      SplitPart(b.rest, sizes, dim, i);
    }
  }

  lemma {:induction false} SplitValuePart(v: Value, sizes: seq<nat>, dim: int, i: nat)
    requires SplitValue(v, sizes, dim).Ok? && i < |sizes|
    ensures 0 <= Sum(sizes[..i]) && PieceOfValue(v, SplitValue(v, sizes, dim).value[i], Sum(sizes[..i]), sizes[i])
    decreases v
  {
    hide Sum;
    SumOfSizes(sizes[..i]);
    match v
    case Tensor(rows) => SplitBySizesAt(rows, 0, sizes, i);
    case List(items) => SplitBySizesAt(items, 0, sizes, i);
    case Dict(entries) => SplitPart(entries, sizes, dim, i);
    case _ =>
  }

  // ---------- concatenating ----------

  function Get(b: Batch, key: string): Option<Value> {
    match b
    case Empty => None
    case Entry(k, v, rest) => if k == key then Some(v) else Get(rest, key)
  }

  /** `[d[key] for d in list_of_dict]`. */
  function Collect(parts: seq<Batch>, key: string): (r: Outcome<seq<Value>>)
    ensures r.Ok? ==> |r.value| == |parts|
  {
    if parts == [] then Ok([])
    else
      var v := Get(parts[0], key);
      var rest := Collect(parts[1..], key);
      if v.None? then Error(KeyError)
      else if rest.Error? then rest else Ok([v.value] + rest.value)
  }

  function TensorRows(vs: seq<Value>): Outcome<seq<seq<int>>> {
    if vs == [] then Ok([])
    else if !vs[0].Tensor? then Error(TypeError)
    else
      var rest := TensorRows(vs[1..]);
      if rest.Error? then rest else Ok([vs[0].rows] + rest.value)
  }

  function ArrayRows(vs: seq<Value>): Outcome<seq<seq<int>>> {
    if vs == [] then Ok([])
    else if vs[0].NoneValue? then ArrayRows(vs[1..])
    else if !vs[0].Array? then Error(TypeError)
    else
      var rest := ArrayRows(vs[1..]);
      if rest.Error? then rest else Ok([vs[0].rows] + rest.value)
  }

  function ListItems(vs: seq<Value>): Outcome<seq<seq<int>>> {
    if vs == [] then Ok([])
    else if vs[0].NoneValue? then ListItems(vs[1..])
    else if !vs[0].List? then Error(TypeError)
    else
      var rest := ListItems(vs[1..]);
      if rest.Error? then rest else Ok([vs[0].items] + rest.value)
  }

  function DictEntries(vs: seq<Value>): (r: Outcome<seq<Batch>>)
    ensures r.Ok? ==> |r.value| == |vs|
  {
    if vs == [] then Ok([])
    else if !vs[0].Dict? then Error(TypeError)
    else
      var rest := DictEntries(vs[1..]);
      if rest.Error? then rest else Ok([vs[0].entries] + rest.value)
  }

  function Joined(rows: Outcome<seq<seq<int>>>, wrap: seq<int> -> Value): Outcome<Value> {
    if rows.Ok? then Ok(wrap(Flatten(rows.value))) else Error(rows.error)
  }

  /** The concatenation of the values vs, by the type of the first one. */
  function CatValue(first: Value, vs: seq<Value>, dim: int): Outcome<Value>
    decreases first
  {
    match first
    case Tensor(_) => Joined(TensorRows(vs), xs => Tensor(xs))
    case Array(_) => Joined(ArrayRows(vs), xs => Array(xs))
    case List(_) => if dim != 0 then Error(AssertionError) else Joined(ListItems(vs), xs => List(xs))
    case Dict(entries) =>
      var parts := DictEntries(vs);
      if parts.Error? then Error(parts.error)
      else
        var b := CatFrom(entries, parts.value, dim);
        if b.Ok? then Ok(Dict(b.value)) else Error(b.error)
    case NoneValue => Ok(NoneValue)
    case Other(_) => Error(ValueError)
  }

  /** The loop over the keys of the first part, from `todo` on. */
  function CatFrom(todo: Batch, parts: seq<Batch>, dim: int): Outcome<Batch>
    decreases todo
  {
    match todo
    case Empty => Ok(Empty)
    case Entry(key, first, rest) =>
      if first.NoneValue? then CatFrom(rest, parts, dim)
      else
        var vs := Collect(parts, key);
        if vs.Error? then Error(vs.error)
        else
          var v := CatValue(first, vs.value, dim);
          if v.Error? then Error(v.error)
          else
            var b := CatFrom(rest, parts, dim);
            if b.Error? then b else Ok(Entry(key, v.value, b.value))
  }

  /** `cat_list_of_dict_tensor`. */
  function Cat(parts: seq<Batch>, dim: int): Outcome<Batch> {
    if parts == [] then Ok(Empty) else CatFrom(parts[0], parts, dim)
  }

  // ---------- what concatenating any parts gives ----------

  /** The values that are not missing, in order. */
  function Present(vs: seq<Value>): seq<Value> {
    if vs == [] then []
    else (if vs[0].NoneValue? then [] else [vs[0]]) + Present(vs[1..])
  }

  function RowsOf(v: Value): seq<int> {
    match v
    case Tensor(rows) => rows
    case Array(rows) => rows
    case List(items) => items
    case _ => []
  }

  function AllRows(vs: seq<Value>): (r: seq<seq<int>>)
    ensures |r| == |vs| && forall i :: 0 <= i < |vs| ==> r[i] == RowsOf(vs[i])
  {
    Map((v: Value) => RowsOf(v), vs)
  }

  lemma {:induction false} TensorRowsAre(vs: seq<Value>)
    ensures TensorRows(vs).Ok? <==> forall i :: 0 <= i < |vs| ==> vs[i].Tensor?
    ensures TensorRows(vs).Ok? ==> TensorRows(vs).value == AllRows(vs)
  {
    if vs == [] {
    } else {
      TensorRowsAre(vs[1..]);
      assert forall i :: 1 <= i < |vs| ==> vs[i] == vs[1..][i - 1];
      assert AllRows(vs) == [RowsOf(vs[0])] + AllRows(vs[1..]);
    }
  }

  lemma {:induction false} ArrayRowsAre(vs: seq<Value>)
    ensures ArrayRows(vs).Ok? <==> forall i :: 0 <= i < |vs| ==> vs[i].Array? || vs[i].NoneValue?
    ensures ArrayRows(vs).Ok? ==> ArrayRows(vs).value == AllRows(Present(vs))
  {
    if vs == [] {
    } else {
      ArrayRowsAre(vs[1..]);
      assert forall i :: 1 <= i < |vs| ==> vs[i] == vs[1..][i - 1];
      RowsHead(vs);
    }
  }

  lemma {:induction false} ListItemsAre(vs: seq<Value>)
    ensures ListItems(vs).Ok? <==> forall i :: 0 <= i < |vs| ==> vs[i].List? || vs[i].NoneValue?
    ensures ListItems(vs).Ok? ==> ListItems(vs).value == AllRows(Present(vs))
  {
    if vs == [] {
    } else {
      ListItemsAre(vs[1..]);
      assert forall i :: 1 <= i < |vs| ==> vs[i] == vs[1..][i - 1];
      RowsHead(vs);
    }
  }

  lemma RowsHead(vs: seq<Value>)
    requires vs != []
    ensures AllRows(Present(vs))
         == (if vs[0].NoneValue? then [] else [RowsOf(vs[0])]) + AllRows(Present(vs[1..]))
  {
  }

  lemma {:induction false} CollectIs(parts: seq<Batch>, key: string)
    ensures Collect(parts, key).Ok? <==> forall i :: 0 <= i < |parts| ==> Get(parts[i], key).Some?
    ensures Collect(parts, key).Ok? ==>
              forall i :: 0 <= i < |parts| ==> Get(parts[i], key) == Some(Collect(parts, key).value[i])
  {
    hide Get;
    if parts == [] {
    } else {
      CollectIs(parts[1..], key);
      assert forall i :: 1 <= i < |parts| ==> parts[i] == parts[1..][i - 1];
    }
  }

  lemma {:induction false} DictEntriesAre(vs: seq<Value>)
    ensures DictEntries(vs).Ok? <==> forall i :: 0 <= i < |vs| ==> vs[i].Dict?
    ensures DictEntries(vs).Ok? ==> forall i :: 0 <= i < |vs| ==> vs[i] == Dict(DictEntries(vs).value[i])
  {
    if vs == [] {
    } else {
      DictEntriesAre(vs[1..]);
      assert forall i :: 1 <= i < |vs| ==> vs[i] == vs[1..][i - 1];
    }
  }

  /** The entry of a key in the result, for a key of the loop that is not missing. */
  lemma {:induction false} CatFromAt(todo: Batch, parts: seq<Batch>, dim: int, key: string)
    requires WellFormed(todo) && CatFrom(todo, parts, dim).Ok?
    ensures Get(todo, key).None? || Get(todo, key) == Some(NoneValue) ==>
              Get(CatFrom(todo, parts, dim).value, key).None?
    ensures Get(todo, key).Some? && Get(todo, key) != Some(NoneValue) ==>
              Collect(parts, key).Ok? &&
              CatValue(Get(todo, key).value, Collect(parts, key).value, dim).Ok? &&
              Get(CatFrom(todo, parts, dim).value, key)
                == Some(CatValue(Get(todo, key).value, Collect(parts, key).value, dim).value)
    decreases todo
  {
    hide Collect;
    hide CatValue;
    if todo.Entry? {
      CatFromAt(todo.rest, parts, dim, key);
      if todo.key == key {
        NotThere(todo.rest, key);
      }
    }
  }

  lemma {:induction false} NotThere(b: Batch, key: string)
    ensures KeyIn(b, key) <==> Get(b, key).Some?
  {
    if b.Entry? {
      NotThere(b.rest, key);
    }
  }

  /**
    Concatenating any parts. Under a key that holds a tensor, array or list in the first part, every part has the
    key, and the result is the rows of all parts one after the other; parts in which an array or list is missing are
    skipped, lists need dimension 0. A key that is missing from the first part, or has no value there, is left out.
  */
  lemma CatRows(parts: seq<Batch>, dim: int, key: string)
    requires parts != [] && WellFormed(parts[0]) && Cat(parts, dim).Ok?
    ensures var first, r := Get(parts[0], key), Get(Cat(parts, dim).value, key);
            (first.None? || first == Some(NoneValue) ==> r.None?) &&
            (first.Some? && !first.value.NoneValue? ==>
              Collect(parts, key).Ok? && r.Some? &&
              var vs := Collect(parts, key).value;
              (forall i :: 0 <= i < |parts| ==> Get(parts[i], key) == Some(vs[i])) &&
              !first.value.Other? &&
              (first.value.Tensor? ==>
                r.value == Tensor(Flatten(AllRows(vs))) && forall i :: 0 <= i < |vs| ==> vs[i].Tensor?) &&
              (first.value.Array? ==>
                r.value == Array(Flatten(AllRows(Present(vs)))) &&
                forall i :: 0 <= i < |vs| ==> vs[i].Array? || vs[i].NoneValue?) &&
              (first.value.List? ==>
                dim == 0 && r.value == List(Flatten(AllRows(Present(vs)))) &&
                forall i :: 0 <= i < |vs| ==> vs[i].List? || vs[i].NoneValue?) &&
              (first.value.Dict? ==>
                r.value.Dict? && DictEntries(vs).Ok? &&
                (forall i :: 0 <= i < |vs| ==> vs[i] == Dict(DictEntries(vs).value[i])) &&
                Cat(DictEntries(vs).value, dim) == Ok(r.value.entries)))
  {
    hide Get;
    hide Collect;
    hide CatFrom;
    CatFromAt(parts[0], parts, dim, key);
    var first := Get(parts[0], key);
    if first.Some? && !first.value.NoneValue? {
      CollectIs(parts, key);
      var vs := Collect(parts, key).value;
      assert vs[0] == first.value;
      ValueRows(first.value, vs, dim);
    }
  }

  lemma ValueRows(first: Value, vs: seq<Value>, dim: int)
    requires vs != [] && vs[0] == first && CatValue(first, vs, dim).Ok? && !first.NoneValue?
    ensures var v := CatValue(first, vs, dim).value;
            !first.Other? &&
            (first.Tensor? ==> v == Tensor(Flatten(AllRows(vs))) && forall i :: 0 <= i < |vs| ==> vs[i].Tensor?) &&
            (first.Array? ==>
              v == Array(Flatten(AllRows(Present(vs)))) &&
              forall i :: 0 <= i < |vs| ==> vs[i].Array? || vs[i].NoneValue?) &&
            (first.List? ==>
              dim == 0 && v == List(Flatten(AllRows(Present(vs)))) &&
              forall i :: 0 <= i < |vs| ==> vs[i].List? || vs[i].NoneValue?) &&
            (first.Dict? ==>
              v.Dict? && DictEntries(vs).Ok? &&
              (forall i :: 0 <= i < |vs| ==> vs[i] == Dict(DictEntries(vs).value[i])) &&
              Cat(DictEntries(vs).value, dim) == Ok(v.entries))
  {
    hide TensorRows;
    hide ArrayRows;
    hide ListItems;
    hide DictEntries;
    hide Flatten;
    hide Present;
    match first
    case Tensor(_) => TensorRowsAre(vs);
    case Array(_) => ArrayRowsAre(vs);
    case List(_) => ListItemsAre(vs);
    case _ => DictEntriesAre(vs);
  }

  // ---------- what comes back ----------

  function RestoredValue(v: Value, n: nat): Outcome<Value>
    decreases v
  {
    match v
    case Array(rows) => Ok(Array(Flatten(Repeat(rows, n))))
    case Dict(entries) =>
      var b := Restored(entries, n);
      if b.Ok? then Ok(Dict(b.value)) else Error(b.error)
    case Other(_) => Error(ValueError)
    case _ => Ok(v)
  }

  /** A batch after splitting into n parts and concatenating: missing values vanish, whole-copied arrays multiply. */
  function Restored(b: Batch, n: nat): Outcome<Batch>
    decreases b
  {
    match b
    case Empty => Ok(Empty)
    case Entry(key, value, rest) =>
      if value.NoneValue? then Restored(rest, n)
      else
        var v := RestoredValue(value, n);
        if v.Error? then Error(v.error)
        else
          var r := Restored(rest, n);
          if r.Error? then r else Ok(Entry(key, v.value, r.value))
  }

  lemma {:induction false} PiecesRestore<T>(xs: seq<T>, at: nat, sizes: seq<nat>)
    requires at + Sum(sizes) == |xs|
    ensures at <= |xs| && Flatten(SplitBySizes(xs, at, sizes)) == xs[at..]
    decreases |sizes|
  {
    SumOfSizes(sizes);
    if sizes == [] {
    } else {
      SumOfSizes(sizes[1..]);
      PiecesRestore(xs, at + sizes[0], sizes[1..]);
      assert xs[at..] == xs[at..at + sizes[0]] + xs[at + sizes[0]..];
    }
  }

  lemma SumOfSizes(sizes: seq<nat>)
    ensures Sum(sizes) >= 0
  {
    SumLowerBound(sizes, 0);
  }

  lemma {:induction false} TensorsJoin(pieces: seq<seq<int>>)
    ensures TensorRows(Wrap(xs => Tensor(xs), pieces)) == Ok(pieces)
  {
    if pieces == [] {
    } else {
      TensorsJoin(pieces[1..]);
      assert pieces == [pieces[0]] + pieces[1..];
      assert Wrap(xs => Tensor(xs), pieces)[1..] == Wrap(xs => Tensor(xs), pieces[1..]);
    }
  }

  lemma {:induction false} ListsJoin(pieces: seq<seq<int>>)
    ensures ListItems(Wrap(xs => List(xs), pieces)) == Ok(pieces)
  {
    if pieces == [] {
    } else {
      ListsJoin(pieces[1..]);
      assert pieces == [pieces[0]] + pieces[1..];
      assert Wrap(xs => List(xs), pieces)[1..] == Wrap(xs => List(xs), pieces[1..]);
    }
  }

  lemma {:induction false} DictsJoin(parts: seq<Batch>)
    ensures DictEntries(Dicts(parts)) == Ok(parts)
  {
    if parts == [] {
    } else {
      DictsJoin(parts[1..]);
      assert parts == [parts[0]] + parts[1..];
      assert Dicts(parts)[1..] == Dicts(parts[1..]);
    }
  }

  lemma {:induction false} ArraysJoin(rows: seq<int>, n: nat)
    ensures var r := ArrayRows(seq(n, i => Array(rows)));
            r.Ok? && Flatten(r.value) == Flatten(Repeat(rows, n))
  {
    if n == 0 {
    } else {
      ArraysJoin(rows, n - 1);
      assert seq(n, i => Array(rows))[1..] == seq(n - 1, i => Array(rows));
      assert Repeat(rows, n)[1..] == Repeat(rows, n - 1);
    }
  }

  /** For each entry, the parts hold the pieces of its value under its key. */
  ghost predicate Serves(parts: seq<Batch>, b: Batch, sizes: seq<nat>, dim: int) {
    b.Entry? ==> Collect(parts, b.key) == SplitValue(b.value, sizes, dim) && Serves(parts, b.rest, sizes, dim)
  }

  lemma {:induction false} CollectOther(parts: seq<Batch>, key: string, vs: seq<Value>, other: string)
    requires |vs| == |parts| && other != key
    ensures Collect(Extend(key, vs, parts), other) == Collect(parts, other)
  {
    if parts == [] {
    } else {
      CollectOther(parts[1..], key, vs[1..], other);
      assert Extend(key, vs, parts)[1..] == Extend(key, vs[1..], parts[1..]);
    }
  }

  lemma {:induction false} CollectOwn(parts: seq<Batch>, key: string, vs: seq<Value>)
    requires |vs| == |parts|
    ensures Collect(Extend(key, vs, parts), key) == Ok(vs)
  {
    if parts == [] {
    } else {
      CollectOwn(parts[1..], key, vs[1..]);
      assert vs == [vs[0]] + vs[1..];
      assert Extend(key, vs, parts)[1..] == Extend(key, vs[1..], parts[1..]);
    }
  }

  lemma {:induction false} StillServes(parts: seq<Batch>, b: Batch, sizes: seq<nat>, key: string, vs: seq<Value>,
                                       dim: int)
    requires |vs| == |parts| && Serves(parts, b, sizes, dim) && !KeyIn(b, key)
    ensures Serves(Extend(key, vs, parts), b, sizes, dim)
    decreases b
  {
    if b.Entry? {
      CollectOther(parts, key, vs, b.key);
      StillServes(parts, b.rest, sizes, key, vs, dim);
    }
  }

  lemma {:induction false} SplitServes(b: Batch, sizes: seq<nat>, dim: int)
    requires WellFormed(b) && Split(b, sizes, dim).Ok?
    ensures Serves(Split(b, sizes, dim).value, b, sizes, dim)
    decreases b
  {
    hide SplitValue;
    hide Collect;
    if b.Entry? {
      var vs, parts := SplitValue(b.value, sizes, dim).value, Split(b.rest, sizes, dim).value;
      SplitServes(b.rest, sizes, dim);
      StillServes(parts, b.rest, sizes, b.key, vs, dim);
      CollectOwn(parts, b.key, vs);
    }
  }

  lemma {:induction false} ValueRestored(v: Value, sizes: seq<nat>, dim: int)
    requires WellFormedValue(v) && SplitValue(v, sizes, dim).Ok? && sizes != [] && !v.NoneValue?
    ensures CatValue(SplitValue(v, sizes, dim).value[0], SplitValue(v, sizes, dim).value, dim)
         == RestoredValue(v, |sizes|)
    decreases v
  {
    match v
    case Tensor(rows) =>
      PiecesRestore(rows, 0, sizes);
      TensorsJoin(SplitBySizes(rows, 0, sizes));
    case List(items) =>
      PiecesRestore(items, 0, sizes);
      ListsJoin(SplitBySizes(items, 0, sizes));
    case Dict(entries) =>
      var parts := Split(entries, sizes, dim).value;
      SplitThenCat(entries, sizes, dim);
      DictsJoin(parts);
    case Array(rows) =>
      ArraysJoin(rows, |sizes|);
      assert SplitValue(v, sizes, dim).value == seq(|sizes|, i => Array(rows));
    case _ =>
  }

  lemma {:induction false} EntriesRestored(b: Batch, sizes: seq<nat>, parts: seq<Batch>, dim: int)
    requires WellFormed(b) && Split(b, sizes, dim).Ok? && sizes != [] && Serves(parts, b, sizes, dim)
    ensures CatFrom(Split(b, sizes, dim).value[0], parts, dim) == Restored(b, |sizes|)
    decreases b, 0
  {
    hide SplitValue;
    hide CatValue;
    hide Collect;
    hide RestoredValue;
    if b.Entry? {
      EntriesRestored(b.rest, sizes, parts, dim);
      if b.value.NoneValue? {
        NoneSplits(sizes, dim);
      } else {
        ValueRestored(b.value, sizes, dim);
        FirstPieceKind(b.value, sizes, dim);
      }
    }
  }

  lemma NoneSplits(sizes: seq<nat>, dim: int)
    requires sizes != []
    ensures SplitValue(NoneValue, sizes, dim).value[0] == NoneValue
  {
  }

  lemma FirstPieceKind(v: Value, sizes: seq<nat>, dim: int)
    requires SplitValue(v, sizes, dim).Ok? && sizes != [] && !v.NoneValue?
    ensures !SplitValue(v, sizes, dim).value[0].NoneValue?
  {
  }

  /** Concatenating the parts of a split gives the batch without its missing values and with its arrays repeated. */
  lemma {:induction false} SplitThenCat(b: Batch, sizes: seq<nat>, dim: int)
    requires WellFormed(b) && Split(b, sizes, dim).Ok? && sizes != []
    ensures Cat(Split(b, sizes, dim).value, dim) == Restored(b, |sizes|)
    decreases b, 1
  {
    SplitServes(b, sizes, dim);
    EntriesRestored(b, sizes, Split(b, sizes, dim).value, dim);
  }

  /**
    The batches that come back unchanged from n parts: no missing or foreign value, and arrays only if not
    repeated.
  */
  ghost predicate Restorable(b: Batch, n: nat) {
    b.Entry? ==> RestorableValue(b.value, n) && Restorable(b.rest, n)
  }

  ghost predicate RestorableValue(v: Value, n: nat) {
    match v
    case Tensor(_) => true
    case List(_) => true
    case Array(rows) => n == 1 || rows == []
    case Dict(entries) => Restorable(entries, n)
    case _ => false
  }

  function Size(b: Batch): nat {
    match b
    case Empty => 0
    case Entry(_, value, rest) => 1 + SizeOfValue(value) + Size(rest)
  }

  function SizeOfValue(v: Value): nat {
    if v.Dict? then Size(v.entries) else 0
  }

  lemma {:induction false} RestoredSmaller(b: Batch, n: nat)
    requires Restored(b, n).Ok?
    ensures Size(Restored(b, n).value) <= Size(b)
  {
    if b.Entry? {
      RestoredSmaller(b.rest, n);
      if !b.value.NoneValue? {
        RestoredValueSmaller(b.value, n);
      }
    }
  }

  lemma {:induction false} RestoredValueSmaller(v: Value, n: nat)
    requires RestoredValue(v, n).Ok?
    ensures SizeOfValue(RestoredValue(v, n).value) <= SizeOfValue(v)
  {
    if v.Dict? {
      RestoredSmaller(v.entries, n);
    }
  }

  lemma RepeatSameIff(rows: seq<int>, n: nat)
    requires n >= 1
    ensures Flatten(Repeat(rows, n)) == rows <==> n == 1 || rows == []
  {
    FlattenLength(Repeat(rows, n), |rows|);
    if n == 1 {
      assert Repeat(rows, 1) == [rows];
      FlattenSingleton(rows);
    } else if rows != [] {
      assert n * |rows| == |rows| + (n - 1) * |rows| && (n - 1) * |rows| >= 1;
    }
  }

  lemma {:induction false} RestoredIff(b: Batch, n: nat)
    requires n >= 1
    ensures Restored(b, n) == Ok(b) <==> Restorable(b, n)
    decreases b
  {
    hide Size;
    if b.Entry? {
      RestoredIff(b.rest, n);
      if b.value.NoneValue? {
        if Restored(b.rest, n).Ok? {
          RestoredSmaller(b.rest, n);
          SizeOfEntry(b);
        }
      } else {
        RestoredValueIff(b.value, n);
      }
    }
  }

  lemma SizeOfEntry(b: Batch)
    requires b.Entry?
    ensures Size(b) > Size(b.rest)
  {
  }

  lemma {:induction false} RestoredValueIff(v: Value, n: nat)
    requires n >= 1 && !v.NoneValue?
    ensures RestoredValue(v, n) == Ok(v) <==> RestorableValue(v, n)
    decreases v
  {
    match v
    case Array(rows) => RepeatSameIff(rows, n);
    case Dict(entries) => RestoredIff(entries, n);
    case _ =>
  }

  /** Every tensor and list, nested ones included, has the total length of the sizes, and lists need dimension 0. */
  ghost predicate Fits(b: Batch, total: int, dim: int) {
    b.Entry? ==> FitsValue(b.value, total, dim) && Fits(b.rest, total, dim)
  }

  ghost predicate FitsValue(v: Value, total: int, dim: int) {
    match v
    case Tensor(rows) => |rows| == total
    case List(items) => dim == 0 && |items| == total
    case Dict(entries) => Fits(entries, total, dim)
    case _ => true
  }

  lemma {:induction false} SplitSucceedsIff(b: Batch, sizes: seq<nat>, dim: int)
    ensures Split(b, sizes, dim).Ok? <==> Fits(b, Sum(sizes), dim)
    decreases b
  {
    hide Pieced;
    if b.Entry? {
      SplitValueSucceedsIff(b.value, sizes, dim);
      SplitSucceedsIff(b.rest, sizes, dim);
    }
  }

  lemma {:induction false} SplitValueSucceedsIff(v: Value, sizes: seq<nat>, dim: int)
    ensures SplitValue(v, sizes, dim).Ok? <==> FitsValue(v, Sum(sizes), dim)
    decreases v
  {
    if v.Dict? {
      SplitSucceedsIff(v.entries, sizes, dim);
    }
  }

  /**
    Concatenating the parts of a split gives back the batch exactly when its leaves are tensors and lists, and arrays
    that are not copied more than once or are empty. Parts of size zero are allowed.
  */
  lemma CatInvertsSplit(b: Batch, sizes: seq<nat>, dim: int)
    requires WellFormed(b) && sizes != [] && Fits(b, Sum(sizes), dim)
    ensures Split(b, sizes, dim).Ok?
    ensures Cat(Split(b, sizes, dim).value, dim) == Ok(b) <==> Restorable(b, |sizes|)
  {
    hide Cat;
    hide Split;
    SplitSucceedsIff(b, sizes, dim);
    SplitThenCat(b, sizes, dim);
    RestoredIff(b, |sizes|);
  }

  /** A missing value is lost. */
  lemma MissingValueLost(dim: int)
    ensures var b := Entry("a", NoneValue, Empty);
            Split(b, [1, 1], dim).Ok? && Cat(Split(b, [1, 1], dim).value, dim) == Ok(Empty)
  {
    var b := Entry("a", NoneValue, Empty);
    SplitSucceedsIff(b, [1, 1], dim);
    SplitThenCat(b, [1, 1], dim);
  }

  // ---------- the loops ----------

  function Append(b: Batch, key: string, v: Value): Batch {
    match b
    case Empty => Entry(key, v, Empty)
    case Entry(k, w, rest) => Entry(k, w, Append(rest, key, v))
  }

  ghost function Concat(a: Batch, b: Batch): Batch {
    match a
    case Empty => b
    case Entry(k, v, rest) => Entry(k, v, Concat(rest, b))
  }

  lemma {:induction false} AppendConcat(a: Batch, key: string, v: Value, b: Batch)
    ensures Concat(Append(a, key, v), b) == Concat(a, Entry(key, v, b))
  {
    if a.Entry? {
      AppendConcat(a.rest, key, v, b);
    }
  }

  lemma {:induction false} ConcatEmpty(a: Batch)
    ensures Concat(a, Empty) == a
  {
    if a.Entry? {
      ConcatEmpty(a.rest);
    }
  }

  ghost function ConcatAll(done: seq<Batch>, todo: seq<Batch>): (r: seq<Batch>)
    requires |done| == |todo|
    ensures |r| == |done| && forall i :: 0 <= i < |r| ==> r[i] == Concat(done[i], todo[i])
  {
    seq(|done|, i requires 0 <= i < |done| => Concat(done[i], todo[i]))
  }

  /** The result from the parts filled so far and the entries still to come. */
  ghost predicate Progress(b: Batch, sizes: seq<nat>, todo: Batch, done: seq<Batch>, dim: int) {
    |done| == |sizes| &&
    match Split(todo, sizes, dim)
    case Ok(parts) => Split(b, sizes, dim) == Ok(ConcatAll(done, parts))
    case Error(e) => Split(b, sizes, dim) == Error(e)
  }

  lemma ProgressStep(b: Batch, sizes: seq<nat>, todo: Batch, done: seq<Batch>, vs: seq<Value>, next: seq<Batch>,
                     dim: int)
    requires Progress(b, sizes, todo, done, dim) && todo.Entry? && SplitValue(todo.value, sizes, dim) == Ok(vs)
    requires |next| == |done| && forall i :: 0 <= i < |done| ==> next[i] == Append(done[i], todo.key, vs[i])
    ensures Progress(b, sizes, todo.rest, next, dim)
  {
    hide SplitValue;
    hide Append;
    hide Concat;
    if Split(todo.rest, sizes, dim).Ok? {
      var parts := Split(todo.rest, sizes, dim).value;
      forall i | 0 <= i < |done|
        ensures Concat(next[i], parts[i]) == Concat(done[i], Entry(todo.key, vs[i], parts[i]))
      {
        AppendConcat(done[i], todo.key, vs[i], parts[i]);
      }
      assert ConcatAll(next, parts) == ConcatAll(done, Extend(todo.key, vs, parts));
    }
  }

  lemma ProgressStart(b: Batch, sizes: seq<nat>, done: seq<Batch>, dim: int)
    requires |done| == |sizes| && forall i :: 0 <= i < |done| ==> done[i] == Empty
    ensures Progress(b, sizes, b, done, dim)
  {
    hide Split;
    if Split(b, sizes, dim).Ok? {
      assert ConcatAll(done, Split(b, sizes, dim).value) == Split(b, sizes, dim).value;
    }
  }

  lemma ProgressEnd(b: Batch, sizes: seq<nat>, done: seq<Batch>, dim: int)
    requires Progress(b, sizes, Empty, done, dim)
    ensures Split(b, sizes, dim) == Ok(done)
  {
    forall i | 0 <= i < |done| ensures Concat(done[i], Empty) == done[i] {
      ConcatEmpty(done[i]);
    }
    assert ConcatAll(done, Split(Empty, sizes, dim).value) == done;
  }

  method SplitFlat(xs: seq<int>, sizes: seq<nat>, wrap: seq<int> -> Value) returns (r: Outcome<seq<Value>>)
    ensures r == Pieced(xs, sizes, wrap)
  {
    if |xs| != Sum(sizes) {
      return Error(AssertionError);
    }
    var pieces := SplitRunning(xs, sizes);
    r := Ok(Wrap(wrap, pieces));
  }

  method SplitOne(v: Value, sizes: seq<nat>, dim: int) returns (r: Outcome<seq<Value>>)
    ensures r == SplitValue(v, sizes, dim)
    decreases v, 1
  {
    match v
    case Tensor(rows) => r := SplitFlat(rows, sizes, xs => Tensor(xs));
    case List(items) =>
      if dim != 0 {
        return Error(AssertionError);
      }
      r := SplitFlat(items, sizes, xs => List(xs));
    case Dict(entries) =>
      var parts := SplitDict(entries, sizes, dim);
      r := if parts.Ok? then Ok(Dicts(parts.value)) else Error(parts.error);
    case _ => r := Ok(seq(|sizes|, i => v));
  }

  /** `split_dict`: the parts are filled key after key. */
  method SplitDict(b: Batch, sizes: seq<nat>, dim: int) returns (r: Outcome<seq<Batch>>)
    ensures r == Split(b, sizes, dim)
    decreases b, 0
  {
    hide Split;
    hide SplitValue;
    hide Progress;
    hide Append;
    var count := |sizes|;
    var parts := new Batch[count](i => Empty);
    var todo := b;
    ProgressStart(b, sizes, parts[..], dim);
    while todo.Entry?
      invariant todo == b || todo < b
      invariant Progress(b, sizes, todo, parts[..], dim)
      decreases todo
    {
      var vs := SplitOne(todo.value, sizes, dim);
      if vs.Error? {
        SplitStops(b, sizes, todo, parts[..], dim);
        return Error(vs.error);
      }
      ghost var before := parts[..];
      for i := 0 to count
        invariant parts[i..] == before[i..]
        invariant forall j :: 0 <= j < i ==> parts[j] == Append(before[j], todo.key, vs.value[j])
      {
        assert parts[i] == before[i];
        parts[i] := Append(parts[i], todo.key, vs.value[i]);
      }
      ProgressStep(b, sizes, todo, before, vs.value, parts[..], dim);
      todo := todo.rest;
    }
    ProgressEnd(b, sizes, parts[..], dim);
    r := Ok(parts[..]);
  }

  lemma SplitStops(b: Batch, sizes: seq<nat>, todo: Batch, done: seq<Batch>, dim: int)
    requires Progress(b, sizes, todo, done, dim) && todo.Entry? && SplitValue(todo.value, sizes, dim).Error?
    ensures Split(b, sizes, dim) == Error(SplitValue(todo.value, sizes, dim).error)
  {
    hide SplitValue;
  }

  /** The result from the entries built so far and the keys still to come. */
  ghost predicate CatProgress(first: Batch, parts: seq<Batch>, todo: Batch, built: Batch, dim: int) {
    match CatFrom(todo, parts, dim)
    case Ok(rest) => CatFrom(first, parts, dim) == Ok(Concat(built, rest))
    case Error(e) => CatFrom(first, parts, dim) == Error(e)
  }

  lemma CatStep(first: Batch, parts: seq<Batch>, todo: Batch, built: Batch, dim: int)
    requires CatProgress(first, parts, todo, built, dim) && todo.Entry?
    ensures todo.value.NoneValue? ==> CatProgress(first, parts, todo.rest, built, dim)
    ensures !todo.value.NoneValue? && Collect(parts, todo.key).Error? ==>
              CatFrom(first, parts, dim) == Error(Collect(parts, todo.key).error)
    ensures !todo.value.NoneValue? && Collect(parts, todo.key).Ok? ==>
              var joined := CatValue(todo.value, Collect(parts, todo.key).value, dim);
              if joined.Error? then CatFrom(first, parts, dim) == Error(joined.error)
              else CatProgress(first, parts, todo.rest, Append(built, todo.key, joined.value), dim)
  {
    hide Collect;
    hide CatValue;
    hide Append;
    hide Concat;
    if !todo.value.NoneValue? && Collect(parts, todo.key).Ok? {
      var v := CatValue(todo.value, Collect(parts, todo.key).value, dim);
      if v.Ok? && CatFrom(todo.rest, parts, dim).Ok? {
        AppendConcat(built, todo.key, v.value, CatFrom(todo.rest, parts, dim).value);
      }
    }
  }

  /** `cat_list_of_dict_tensor`: key after key of the first part. */
  method CatDicts(parts: seq<Batch>, dim: int) returns (r: Outcome<Batch>)
    ensures r == Cat(parts, dim)
  {
    if parts == [] {
      return Ok(Empty);
    }
    r := CatKeys(parts[0], parts, dim);
  }

  method CatKeys(first: Batch, parts: seq<Batch>, dim: int) returns (r: Outcome<Batch>)
    requires parts != []
    ensures r == CatFrom(first, parts, dim)
    decreases Size(first), 1
  {
    hide CatFrom;
    hide CatValue;
    hide Collect;
    hide CatProgress;
    hide Append;
    var todo, built := first, Empty;
    CatStart(first, parts, dim);
    while todo.Entry?
      invariant Size(todo) <= Size(first)
      invariant CatProgress(first, parts, todo, built, dim)
      decreases todo
    {
      CatStep(first, parts, todo, built, dim);
      if !todo.value.NoneValue? {
        var vs := Collect(parts, todo.key);
        if vs.Error? {
          return Error(vs.error);
        }
        var v := CatOne(todo.value, vs.value, dim);
        if v.Error? {
          return Error(v.error);
        }
        built := Append(built, todo.key, v.value);
      }
      todo := todo.rest;
    }
    CatEnd(first, parts, built, dim);
    r := Ok(built);
  }

  lemma CatStart(first: Batch, parts: seq<Batch>, dim: int)
    ensures CatProgress(first, parts, first, Empty, dim)
  {
  }

  lemma CatEnd(first: Batch, parts: seq<Batch>, built: Batch, dim: int)
    requires CatProgress(first, parts, Empty, built, dim)
    ensures CatFrom(first, parts, dim) == Ok(built)
  {
    ConcatEmpty(built);
  }

  method CatOne(first: Value, vs: seq<Value>, dim: int) returns (r: Outcome<Value>)
    requires vs != []
    ensures r == CatValue(first, vs, dim)
    decreases SizeOfValue(first), 2
  {
    match first
    case Tensor(_) => r := Joined(TensorRows(vs), xs => Tensor(xs));
    case Array(_) => r := Joined(ArrayRows(vs), xs => Array(xs));
    case List(_) =>
      if dim != 0 {
        return Error(AssertionError);
      }
      r := Joined(ListItems(vs), xs => List(xs));
    case Dict(entries) =>
      var parts := DictEntries(vs);
      if parts.Error? {
        return Error(parts.error);
      }
      var b := CatKeys(entries, parts.value, dim);
      r := if b.Ok? then Ok(Dict(b.value)) else Error(b.error);
    case NoneValue => r := Ok(NoneValue);
    case Other(_) => r := Error(ValueError);
  }
}
