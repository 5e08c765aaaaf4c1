/**
 * The for-in loop the record mappers share: visit a record's fields in
 * enumeration order and, for each field the filter keeps, write the
 * converted value under the renamed key. A later write to the same key
 * overwrites an earlier one.
 */
module FieldCopy {
  import opened JsValues

  /** The field enumerated at position `i` passes the filter. */
  predicate Kept(source: Record, keep: (string, Value) -> bool, i: int)
    requires 0 <= i < |source.keys|
  {
    keep(source.keys[i], source.Get(source.keys[i]))
  }

  /** Among the first `n` fields, field `i` is kept and no later kept field is renamed onto its key. */
  predicate LastWriter(source: Record, keep: (string, Value) -> bool, rename: string -> string, i: int, n: int)
    requires 0 <= i < n <= |source.keys|
  {
    && Kept(source, keep, i)
    && forall j :: i < j < n && Kept(source, keep, j) ==> rename(source.keys[j]) != rename(source.keys[i])
  }

  /** On every key outside `reserved`, a key is present exactly when one of the first `n` kept fields is renamed onto it. */
  ghost predicate KeysCopied(source: Record, keep: (string, Value) -> bool, rename: string -> string, n: int,
                             target: map<string, Value>, reserved: set<string>)
    requires 0 <= n <= |source.keys|
  {
    forall k :: k !in reserved ==>
      (k in target <==> exists i :: 0 <= i < n && Kept(source, keep, i) && rename(source.keys[i]) == k)
  }

  /** Each last writer among the first `n` fields whose key is outside `reserved` left its converted value there. */
  ghost predicate ValuesCopied(source: Record, keep: (string, Value) -> bool, rename: string -> string,
                               convert: (string, Value) -> Value, n: int,
                               target: map<string, Value>, reserved: set<string>)
    requires 0 <= n <= |source.keys|
  {
    forall i :: 0 <= i < n && LastWriter(source, keep, rename, i, n) && rename(source.keys[i]) !in reserved ==>
      && rename(source.keys[i]) in target
      && target[rename(source.keys[i])] == convert(source.keys[i], source.Get(source.keys[i]))
  }

  /**
   * `target` is what copying the first `n` fields produces, on every key
   * outside `reserved`: a key is present exactly when some kept field is
   * renamed onto it, and it holds the converted value of the last such field.
   */
  ghost predicate CopiedUpTo(source: Record, keep: (string, Value) -> bool, rename: string -> string,
                             convert: (string, Value) -> Value, n: int,
                             target: map<string, Value>, reserved: set<string>)
    requires 0 <= n <= |source.keys|
  {
    KeysCopied(source, keep, rename, n, target, reserved) && ValuesCopied(source, keep, rename, convert, n, target, reserved)
  }

  ghost predicate Copied(source: Record, keep: (string, Value) -> bool, rename: string -> string,
                         convert: (string, Value) -> Value,
                         target: map<string, Value>, reserved: set<string>)
  {
    CopiedUpTo(source, keep, rename, convert, |source.keys|, target, reserved)
  }

  method CopyFields(source: Record, keep: (string, Value) -> bool, rename: string -> string,
                    convert: (string, Value) -> Value)
    returns (target: map<string, Value>)
    ensures Copied(source, keep, rename, convert, target, {})
  {
    target := map[];
    var n := 0;
    while n < |source.keys|
      invariant 0 <= n <= |source.keys|
      invariant CopiedUpTo(source, keep, rename, convert, n, target, {})
    {
      KeysStep(source, keep, rename, convert, n, target);
      ValuesStep(source, keep, rename, convert, n, target);
      var field := source.keys[n];
      var value := source.Get(field);
      if keep(field, value) {
        target := target[rename(field) := convert(field, value)];
      }
      n := n + 1;
    }
  }

  /** The next field, if kept, adds exactly its renamed key. */
  lemma KeysStep(source: Record, keep: (string, Value) -> bool, rename: string -> string,
                 convert: (string, Value) -> Value, n: int, target: map<string, Value>)
    requires 0 <= n < |source.keys|
    requires KeysCopied(source, keep, rename, n, target, {})
    ensures var field := source.keys[n];
            var value := source.Get(field);
            KeysCopied(source, keep, rename, n + 1,
                       if keep(field, value) then target[rename(field) := convert(field, value)] else target, {})
  {
    var field := source.keys[n];
    var value := source.Get(field);
    var next := if keep(field, value) then target[rename(field) := convert(field, value)] else target;
    forall k
      ensures k in next <==> exists i :: 0 <= i < n + 1 && Kept(source, keep, i) && rename(source.keys[i]) == k
    {
      if keep(field, value) && k == rename(field) {
        assert Kept(source, keep, n);
      } else if exists i :: 0 <= i < n + 1 && Kept(source, keep, i) && rename(source.keys[i]) == k {
        var i :| 0 <= i < n + 1 && Kept(source, keep, i) && rename(source.keys[i]) == k;
        assert i < n;
      }
    }
  }

  /** The next field, if kept, becomes the last writer of its key; other last writers keep theirs. */
  lemma ValuesStep(source: Record, keep: (string, Value) -> bool, rename: string -> string,
                   convert: (string, Value) -> Value, n: int, target: map<string, Value>)
    requires 0 <= n < |source.keys|
    requires ValuesCopied(source, keep, rename, convert, n, target, {})
    ensures var field := source.keys[n];
            var value := source.Get(field);
            ValuesCopied(source, keep, rename, convert, n + 1,
                         if keep(field, value) then target[rename(field) := convert(field, value)] else target, {})
  {
    var field := source.keys[n];
    var value := source.Get(field);
    var next := if keep(field, value) then target[rename(field) := convert(field, value)] else target;
    forall i | 0 <= i < n + 1 && LastWriter(source, keep, rename, i, n + 1)
      ensures rename(source.keys[i]) in next
              && next[rename(source.keys[i])] == convert(source.keys[i], source.Get(source.keys[i]))
    {
      if i < n {
        assert LastWriter(source, keep, rename, i, n);
        assert Kept(source, keep, n) ==> rename(source.keys[i]) != rename(field);
      }
    }
  }

  /** Assigning a key after the loop (`payload.id = ...`) keeps the copy intact on every other key. */
  lemma CopiedAfterAssignment(source: Record, keep: (string, Value) -> bool, rename: string -> string,
                              convert: (string, Value) -> Value,
                              target: map<string, Value>, reserved: set<string>, key: string, value: Value)
    requires Copied(source, keep, rename, convert, target, reserved)
    ensures Copied(source, keep, rename, convert, target[key := value], reserved + {key})
  {
  }

  /** Every kept field is overwritten, if at all, by a later kept field on the same key that is itself the last writer. */
  lemma {:induction false} LastWriterExists(source: Record, keep: (string, Value) -> bool, rename: string -> string,
                                            i: int, n: int)
    requires 0 <= i < n <= |source.keys| && Kept(source, keep, i)
    ensures exists j :: i <= j < n && LastWriter(source, keep, rename, j, n) && rename(source.keys[j]) == rename(source.keys[i])
    decreases n - i
  {
    if !LastWriter(source, keep, rename, i, n) {
      var j :| i < j < n && Kept(source, keep, j) && rename(source.keys[j]) == rename(source.keys[i]);
      LastWriterExists(source, keep, rename, j, n);
    }
  }

  /** Without renaming, every kept field is copied under its own name with its own converted value. */
  lemma IdentityCopy(source: Record, keep: (string, Value) -> bool, rename: string -> string,
                     convert: (string, Value) -> Value,
                     target: map<string, Value>, reserved: set<string>)
    requires forall k :: rename(k) == k
    requires Copied(source, keep, rename, convert, target, reserved)
    ensures forall i :: 0 <= i < |source.keys| && Kept(source, keep, i) && source.keys[i] !in reserved ==>
              source.keys[i] in target && target[source.keys[i]] == convert(source.keys[i], source.Get(source.keys[i]))
  {
    var n := |source.keys|;
    forall i | 0 <= i < n && Kept(source, keep, i) && source.keys[i] !in reserved
      ensures source.keys[i] in target && target[source.keys[i]] == convert(source.keys[i], source.Get(source.keys[i]))
    {
      LastWriterExists(source, keep, rename, i, n);
      var j :| i <= j < n && LastWriter(source, keep, rename, j, n) && rename(source.keys[j]) == rename(source.keys[i]);
      assert source.keys[j] == source.keys[i];
    }
  }

  /**
   * When the record's names are distinct and the renaming never merges two
   * kept fields, every kept field lands under its renamed key with its
   * converted value.
   */
  lemma InjectiveCopy(source: Record, keep: (string, Value) -> bool, rename: string -> string,
                      convert: (string, Value) -> Value,
                      target: map<string, Value>, reserved: set<string>)
    requires source.DistinctKeys()
    requires forall i, j ::
               (0 <= i < |source.keys| && 0 <= j < |source.keys| && Kept(source, keep, i) && Kept(source, keep, j)
                && rename(source.keys[i]) == rename(source.keys[j])) ==> source.keys[i] == source.keys[j]
    requires Copied(source, keep, rename, convert, target, reserved)
    ensures forall i :: 0 <= i < |source.keys| && Kept(source, keep, i) && rename(source.keys[i]) !in reserved ==>
              rename(source.keys[i]) in target
              && target[rename(source.keys[i])] == convert(source.keys[i], source.Get(source.keys[i]))
  {
    var n := |source.keys|;
    forall i | 0 <= i < n && Kept(source, keep, i)
      ensures LastWriter(source, keep, rename, i, n)
    {
    }
  }
}
