/** StringKey: an object key wrapping a possibly null string, where a null
    key equals nothing, not even another null key. */
module StringKey {
  import opened Wrappers

  /** The argument of equals(Object): a String, a StringKey, or anything
      else (null included). */
  datatype Arg = StringArg(s: string) | StringKeyArg(k: StringKey) | OtherArg

  class StringKey {
    /** The key; None is Java's null. */
    var key: Option<string>

    /** StringKey(): the key is set later. */
    constructor()
      ensures key == None
    {
      key := None;
    }

    /** StringKey(String). */
    constructor FromString(key: Option<string>)
      ensures this.key == key
    {
      this.key := key;
    }

    /** StringKey(StringKey): the same value as the other key. */
    constructor FromKey(other: StringKey)
      ensures key == other.key
    {
      key := other.key;
    }

    /** getString(): the key as a String. */
    function GetString(): (r: Option<string>)
      reads this
      ensures r == key
    {
      key
    }

    /** setValue(String). */
    method SetValue(key: Option<string>)
      modifies this
      ensures this.key == key
    {
      this.key := key;
    }

    /** setValue(StringKey): copies the other key's value; a null argument
        makes this key null. */
    method SetValueFromKey(other: StringKey?)
      modifies this
      ensures key == if other == null then None else old(other.key)
    {
      if other != null {
        key := other.key;
      } else {
        key := None;
      }
    }

    /** equals(Object). */
    function Equals(arg: Arg): (r: bool)
      reads this, if arg.StringKeyArg? then {arg.k} else {}
    {
      if key.None? then false
      else
        match arg
        case StringArg(s) => s == key.value
        case StringKeyArg(k) => k.key == key
        case OtherArg => false
    }

    /** toString(): the key, or "" for a null key. */
    function ToString(): (r: string)
      reads this
    {
      if key.Some? then key.value else ""
    }

    /** A null key equals nothing, itself included. */
    lemma NullEqualsNothing(arg: Arg)
      requires key.None?
      ensures !Equals(arg) && !Equals(StringKeyArg(this))
    {
    }

    /** With a key, equals(String s) holds exactly when s is the key, and
        then toString gives s back. */
    lemma EqualsString(s: string)
      requires key.Some?
      ensures Equals(StringArg(s)) <==> key == Some(s)
      ensures Equals(StringArg(s)) <==> ToString() == s
    {
    }

    /** A null key prints as "" yet does not equal "". */
    lemma NullKeyPrintsEmpty()
      requires key.None?
      ensures ToString() == "" && !Equals(StringArg(""))
    {
    }

    /** Between StringKeys, equals is symmetric, and it is reflexive
        exactly for non-null keys. */
    lemma EqualsSymmetric(other: StringKey)
      ensures Equals(StringKeyArg(other)) == other.Equals(StringKeyArg(this))
      ensures Equals(StringKeyArg(this)) <==> key.Some?
    {
    }

    /** Equal StringKeys agree on every String and every other StringKey. */
    lemma EqualsTransitive(other: StringKey, arg: Arg)
      requires Equals(StringKeyArg(other))
      ensures Equals(arg) == other.Equals(arg)
    {
    }

    /** Any other argument is unequal. */
    lemma OtherIsUnequal()
      ensures !Equals(OtherArg)
    {
    }
  }

  /** A copy equals the original exactly when the original's key is not
      null. */
  method CopyEqualsOriginal(original: StringKey) returns (copy: StringKey)
    ensures fresh(copy) && copy.key == original.key
    ensures copy.Equals(StringKeyArg(original)) <==> original.key.Some?
  {
    copy := new StringKey.FromKey(original);
  }
}
