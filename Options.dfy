/** Option sets for readers and writers (relais/dev/options.py): a
    dictionary initialised from the class's `defaults` overridden by the
    user's values, then validated. */
module Options {
  import opened Results

  /** `defaults.copy()` updated with the user's values: every key of
      either, the user's value winning. */
  function Merge<V>(defaults: map<string, V>, user: map<string, V>): (r: map<string, V>)
    ensures r.Keys == defaults.Keys + user.Keys
    ensures forall k | k in user :: r[k] == user[k]
    ensures forall k | k in defaults && k !in user :: r[k] == defaults[k]
  {
    defaults + user
  }

  /** Without user values the defaults come back; without defaults the
      user's values; and merging the same user values again changes
      nothing. */
  lemma MergeLaws<V>(defaults: map<string, V>, user: map<string, V>)
    ensures Merge(defaults, map[]) == defaults
    ensures Merge(map[], user) == user
    ensures Merge(Merge(defaults, user), user) == Merge(defaults, user)
  {
    assert Merge(defaults, map[]).Keys == defaults.Keys;
    assert Merge(map[], user).Keys == user.Keys;
  }

  class Options<V> {
    /** The class attribute `defaults`. */
    const defaults: map<string, V>
    /** The dictionary's own contents. */
    var items: map<string, V>

    /** `Options(**user)`: copy the defaults, update the copy with the
        user's values, take that as the contents, then validate. The class
        defaults are left as they were. */
    constructor (defaults: map<string, V>, user: map<string, V>)
      ensures this.defaults == defaults
      ensures items == Merge(defaults, user)
    {
      this.defaults := defaults;
      var options := defaults;
      options := options + user;
      items := options;
    }

    /** `_validate` of the base class accepts every option set. */
    function Validate(): (r: Outcome)
      ensures r == Pass
    {
      Pass
    }
  }
}
