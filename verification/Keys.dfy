/** Internal keys: dbformat.h and dbformat.cc.

    A user key is represented by its rank under the user comparator. The comparator is any
    total order on byte strings; there are countably many of them, so every such order embeds
    in the reals, and keys the comparator calls equal share a rank. */
module Keys {

  type UserKey = real

  datatype Kind = Deletion | Value

  datatype IKey = IKey(user: UserKey, sn: nat, kind: Kind)

  datatype Entry = Entry(key: IKey, value: string)

  /** kMaxSequenceNumber: 56 bits. */
  const MAX_SEQ: nat := 0xFF_FFFF_FFFF_FFFF

  /** PackSequenceAndType. */
  function Tag(k: IKey): nat {
    256 * k.sn + (if k.kind.Value? then 1 else 0)
  }

  /** InternalKeyComparator::Compare(a, b) < 0: increasing user key, then decreasing tag. */
  predicate Less(a: IKey, b: IKey) {
    a.user < b.user || (a.user == b.user && Tag(a) > Tag(b))
  }

  /** The order of stored keys, whose (user key, sequence number) pairs are distinct. */
  predicate Before(a: IKey, b: IKey) {
    a.user < b.user || (a.user == b.user && a.sn > b.sn)
  }

  /** The key LookupKey builds: kValueTypeForSeek is kTypeValue. */
  function SeekKey(user: UserKey, s: nat): IKey {
    IKey(user, s, Value)
  }

  /** Tables and memtables hold their entries in this form. */
  ghost predicate Sorted(es: seq<Entry>) {
    forall i, j :: 0 <= i < j < |es| ==> Before(es[i].key, es[j].key)
  }
}
