/**
 * com.ct.bean.SuperBean: the mapped superclass of every entity, identified
 * by its primary key `id`. `equals` and `hashCode` treat two beans as the
 * same entity when they are of one runtime class and carry the same
 * non-null key; a bean without a key is equal only to itself.
 */
module Bean {
  import opened Common

  /** `SuperBean<K extends Serializable>`; `==` on `K` stands for `K.equals`. */
  class SuperBean<K(==)> {
    /** `getClass()`: the concrete entity class the bean was created as. */
    const runtimeClass: string
    var id: Option<K>

    constructor (runtimeClass: string)
      ensures this.runtimeClass == runtimeClass && id == None
    {
      this.runtimeClass := runtimeClass;
      id := None;
    }

    method GetId() returns (r: Option<K>)
      ensures r == id
    {
      return id;
    }

    method SetId(id: Option<K>)
      modifies this
      ensures this.id == id
    {
      this.id := id;
    }

    /** `hashCode`, given the key type's own `hashCode`. */
    function HashCode(idHash: K -> Int): (h: Int)
      reads this
      ensures id.None? ==> h == 0
      ensures id.Some? ==> h == idHash(id.value)
    {
      if id.None? then 0 else idHash(id.value)
    }

    /**
     * `equals`. The reference test `id == objId` and the later
     * `id.equals(objId)` both answer true exactly for equal non-null keys,
     * so the two are one comparison here.
     */
    function Equals(obj: SuperBean?<K>): (b: bool)
      reads this, obj
      ensures obj == this ==> b
      ensures obj == null ==> !b
      ensures obj != null && obj.runtimeClass != runtimeClass ==> !b
      ensures obj != null && obj != this && (id.None? || obj.id.None?) ==> !b
      ensures obj != null && obj != this && obj.runtimeClass == runtimeClass && id.Some? && obj.id.Some? ==>
                (b <==> id.value == obj.id.value)
    {
      if this == obj then true
      else if obj == null then false
      else if runtimeClass == obj.runtimeClass then
        var objId := obj.id;
        // both keys null (the same reference), or exactly one of them null
        if id.None? || objId.None? then false
        else id.value == objId.value
      else false
    }
  }

  /** `equals` is symmetric. */
  lemma EqualsSymmetric<K>(a: SuperBean<K>, b: SuperBean<K>)
    ensures a.Equals(b) <==> b.Equals(a)
  {
  }

  /** `equals` is transitive. */
  lemma EqualsTransitive<K>(a: SuperBean<K>, b: SuperBean<K>, c: SuperBean<K>)
    requires a.Equals(b) && b.Equals(c)
    ensures a.Equals(c)
  {
  }

  /** Equal beans have equal hash codes, whatever the key type's hash. */
  lemma EqualBeansEqualHashes<K>(a: SuperBean<K>, b: SuperBean<K>, idHash: K -> Int)
    requires a.Equals(b)
    ensures a.HashCode(idHash) == b.HashCode(idHash)
  {
  }

  /** A bean whose key is null is equal to no other bean, even one of its own class without a key. */
  lemma NoKeyNoPeer<K>(a: SuperBean<K>, b: SuperBean<K>)
    requires a != b && a.id.None?
    ensures !a.Equals(b) && !b.Equals(a)
  {
  }
}
