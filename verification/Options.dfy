/** `None` stands for a raised exception or an absent value, as each function says. */
module Options {
  datatype Option<+T> = None | Some(value: T) {
    predicate IsFailure() {
      None?
    }

    function PropagateFailure<U>(): Option<U>
      requires None?
    {
      None
    }

    function Extract(): T
      requires Some?
    {
      value
    }
  }

  /** All the values, or `None` when one is missing. */
  function Collect<T>(options: seq<Option<T>>): Option<seq<T>> {
    if options == [] then Some([])
    else
      var n := |options| - 1;
      var before :- Collect(options[..n]);
      var last :- options[n];
      Some(before + [last])
  }

  lemma {:induction false} CollectAll<T>(options: seq<Option<T>>)
    ensures Collect(options).Some? <==> forall i :: 0 <= i < |options| ==> options[i].Some?
    ensures Collect(options).Some? ==> |Collect(options).value| == |options|
    ensures Collect(options).Some? ==> forall i :: 0 <= i < |options| ==> options[i] == Some(Collect(options).value[i])
  {
    if options != [] {
      var n := |options| - 1;
      CollectAll(options[..n]);
      assert forall i :: 0 <= i < n ==> options[..n][i] == options[i];
    }
  }

  lemma CollectStep<T>(options: seq<Option<T>>, i: nat)
    requires i < |options| && Collect(options[..i]).Some?
    ensures Collect(options[..i + 1]) ==
            if options[i].Some? then Some(Collect(options[..i]).value + [options[i].value]) else None
    ensures options[i].None? ==> Collect(options).None?
  {
    assert options[..i + 1][..i] == options[..i];
    CollectAll(options);
  }

  lemma CollectFront<T>(options: seq<Option<T>>)
    requires options != []
    ensures
      var rest := Collect(options[1..]);
      Collect(options) ==
      if options[0].Some? && rest.Some? then Some([options[0].value] + rest.value) else None
  {
    CollectAll(options);
    CollectAll(options[1..]);
    assert forall i :: 1 <= i < |options| ==> options[i] == options[1..][i - 1];
    var rest := Collect(options[1..]);
    if options[0].Some? && rest.Some? {
      assert forall i :: 1 <= i < |options| ==> options[i] == Some(rest.value[i - 1]);
      assert Collect(options).value == [options[0].value] + rest.value;
    } else if options[0].Some? {
      var i :| 0 <= i < |options| - 1 && options[1..][i].None?;
      assert options[i + 1].None?;
    }
  }
}
