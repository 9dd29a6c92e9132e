/** The open/closed state of a result list's accordion: a plain object from
    item key to a flag. The page reads it as `!!open[key]`, so a key the
    object does not hold itself falls through to the object's prototype:
    it reads as open when `Object.prototype` has a member of that name, and
    as closed otherwise. `inherited` is the set of such keys. */
module Accordion {

  /** The names of the members of `Object.prototype`. Every one of them is a
      function or, for `__proto__`, the prototype object, so each is truthy. */
  const ObjectPrototypeKeys: set<string> := {
    "constructor", "hasOwnProperty", "isPrototypeOf", "propertyIsEnumerable",
    "toLocaleString", "toString", "valueOf", "__proto__",
    "__defineGetter__", "__defineSetter__", "__lookupGetter__", "__lookupSetter__"
  }

  /** What the page shows for item `k`: `!!open[k]`, where a key that is not
      an own entry reads the prototype's member. */
  predicate IsOpen<K>(open: map<K, bool>, k: K, inherited: set<K>): (shown: bool)
    ensures k in open && open[k] ==> shown
    ensures shown ==> (k in open && open[k]) || k in inherited
  {
    if k in open then open[k] else k in inherited
  }

  /** `toggle(k)`: `{ ...prev, [k]: !prev[k] }`. The computed key makes `k`
      an own entry, so it shadows the prototype from then on. */
  function Toggle<K>(open: map<K, bool>, k: K, inherited: set<K>): (r: map<K, bool>)
    ensures r.Keys == open.Keys + {k}
    ensures IsOpen(r, k, inherited) <==> !IsOpen(open, k, inherited)
    ensures forall j :: j in open && j != k ==> r[j] == open[j]
  {
    open[k := !IsOpen(open, k, inherited)]
  }

  /** The state a fetch starts from, `{}`: an item is shown open exactly when
      its key names a prototype member. */
  lemma EmptyShowsInherited<K>(k: K, inherited: set<K>)
    ensures IsOpen(map[], k, inherited) <==> k in inherited
  {
  }

  /** Toggling one key never changes what another item shows. */
  lemma ToggleKeepsOthers<K>(open: map<K, bool>, k: K, j: K, inherited: set<K>)
    requires j != k
    ensures IsOpen(Toggle(open, k, inherited), j, inherited) == IsOpen(open, j, inherited)
  {
  }

  /** Toggling the same key twice shows every item as before, although the
      map now holds an own entry where the key may have been absent. */
  lemma ToggleTwice<K>(open: map<K, bool>, k: K, j: K, inherited: set<K>)
    ensures IsOpen(Toggle(Toggle(open, k, inherited), k, inherited), j, inherited) == IsOpen(open, j, inherited)
  {
  }

  /** The order of two toggles does not matter to what is shown. */
  lemma ToggleCommutes<K>(open: map<K, bool>, a: K, b: K, j: K, inherited: set<K>)
    ensures IsOpen(Toggle(Toggle(open, a, inherited), b, inherited), j, inherited)
         == IsOpen(Toggle(Toggle(open, b, inherited), a, inherited), j, inherited)
  {
  }
}
