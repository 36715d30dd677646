/** Which observations belong to one VM's history, and which of them its query finds. lower stands
    for the folding of letter case the keys use, whatever letters it knows. */
module LineageKeys {
  import opened Common
  import opened Inventory
  import opened Strings

  type Fold = string -> string

  predicate HasObject(o: Observation) { o.vcenterID != "" && o.vm.id != "" }

  function LineageKey(lower: Fold, o: Observation): string {
    if o.vm.instanceUUID != "" then "i:" + o.vm.instanceUUID
    else if o.vm.biosUUID != "" then "b:" + o.vm.biosUUID
    else if HasObject(o) then "m:" + (o.vcenterID + NUL + o.vm.id)
    else "n:" + (lower(o.context) + NUL + lower(o.vm.name))
  }

  predicate SameObject(a: Observation, b: Observation) {
    a.vcenterID != "" && b.vcenterID != "" && a.vcenterID == b.vcenterID && a.vm.id != "" && a.vm.id == b.vm.id
  }

  predicate SameLineage(lower: Fold, a: Observation, b: Observation) {
    || SameObject(a, b)
    || (a.vm.instanceUUID != "" && a.vm.instanceUUID == b.vm.instanceUUID)
    || (a.vm.biosUUID != "" && a.vm.biosUUID == b.vm.biosUUID)
    || LineageKey(lower, a) == LineageKey(lower, b)
  }

  predicate NoIdentity(o: Observation) {
    !HasObject(o) && o.vm.instanceUUID == "" && o.vm.biosUUID == ""
  }

  /** What the query for a VM's observations selects: any identity it has, or its names when it has
      none. The database folds the letters of ASCII only. */
  predicate Selected(wanted: Observation, o: Observation) {
    || (HasObject(wanted) && o.vcenterID == wanted.vcenterID && o.vm.id == wanted.vm.id)
    || (wanted.vm.instanceUUID != "" && o.vm.instanceUUID == wanted.vm.instanceUUID)
    || (wanted.vm.biosUUID != "" && o.vm.biosUUID == wanted.vm.biosUUID)
    || (NoIdentity(wanted) && Lower(o.vm.name) == Lower(wanted.vm.name) && Lower(o.context) == Lower(wanted.context))
  }

  // ----- Reading the parts of a key

  ghost predicate KeepsPlain(lower: Fold) { forall s :: Plain(s) ==> Plain(lower(s)) }

  /** The parts that stand before a separator. */
  predicate PlainParts(o: Observation) { Plain(o.context) && Plain(o.vcenterID) }

  lemma KeyStarts(lower: Fold, o: Observation)
    ensures LineageKey(lower, o) != ""
    ensures LineageKey(lower, o)[0] == if o.vm.instanceUUID != "" then 'i' else if o.vm.biosUUID != "" then 'b'
      else if HasObject(o) then 'm' else 'n'
  {
  }

  /** What two equal keys say of the observations. */
  lemma SameKey(lower: Fold, a: Observation, b: Observation)
    requires LineageKey(lower, a) == LineageKey(lower, b) && KeepsPlain(lower) && PlainParts(a) && PlainParts(b)
    ensures a.vm.instanceUUID == b.vm.instanceUUID
    ensures a.vm.instanceUUID == "" ==> a.vm.biosUUID == b.vm.biosUUID
    ensures a.vm.instanceUUID == "" && a.vm.biosUUID == "" ==>
      if HasObject(a) then SameObject(a, b)
      else NoIdentity(b) && lower(a.context) == lower(b.context) && lower(a.vm.name) == lower(b.vm.name)
  {
    KeyStarts(lower, a);
    KeyStarts(lower, b);
    if a.vm.instanceUUID != "" {
      KeyTail(a.vm.instanceUUID, b.vm.instanceUUID, "i:");
    } else if a.vm.biosUUID != "" {
      KeyTail(a.vm.biosUUID, b.vm.biosUUID, "b:");
    } else if HasObject(a) {
      KeyTail(a.vcenterID + NUL + a.vm.id, b.vcenterID + NUL + b.vm.id, "m:");
      JoinSplits(a.vcenterID, a.vm.id, b.vcenterID, b.vm.id);
    } else {
      KeyTail(lower(a.context) + NUL + lower(a.vm.name), lower(b.context) + NUL + lower(b.vm.name), "n:");
      JoinSplits(lower(a.context), lower(a.vm.name), lower(b.context), lower(b.vm.name));
    }
  }

  // ----- What the query misses

  /** The names agree as the key folds them, and not as the database does. */
  predicate FoldedApart(lower: Fold, a: Observation, b: Observation) {
    && lower(a.context) == lower(b.context) && lower(a.vm.name) == lower(b.vm.name)
    && !(Lower(a.context) == Lower(b.context) && Lower(a.vm.name) == Lower(b.vm.name))
  }

  /** The query misses an observation of the lineage exactly when neither has an identity and their
      names agree only as the key folds them. */
  lemma MissedExactlyWhen(lower: Fold, wanted: Observation, o: Observation)
    requires KeepsPlain(lower) && PlainParts(wanted) && PlainParts(o)
    ensures SameLineage(lower, wanted, o) && !Selected(wanted, o)
      <==> NoIdentity(wanted) && NoIdentity(o) && FoldedApart(lower, wanted, o)
  {
    if LineageKey(lower, wanted) == LineageKey(lower, o) {
      SameKey(lower, wanted, o);
    }
  }

  ghost predicate MissesNothing(lower: Fold) {
    forall wanted, o :: PlainParts(wanted) && PlainParts(o) && SameLineage(lower, wanted, o) ==> Selected(wanted, o)
  }

  function Named(name: string): Observation {
    Observation("", "", VM("", name, "", "", "", "", "", [], true, 1, 1, "", "", "", ""))
  }

  /** The query finds every observation of every lineage exactly when the database's fold equates
      every two names the key's fold does. */
  lemma MissesNothingExactlyWhen(lower: Fold)
    requires KeepsPlain(lower)
    ensures MissesNothing(lower) <==> forall s, t :: lower(s) == lower(t) ==> Lower(s) == Lower(t)
  {
    if MissesNothing(lower) {
      forall s, t | lower(s) == lower(t) ensures Lower(s) == Lower(t) {
        MissedExactlyWhen(lower, Named(s), Named(t));
      }
    } else {
      var wanted, o :| PlainParts(wanted) && PlainParts(o) && SameLineage(lower, wanted, o) && !Selected(wanted, o);
      MissedExactlyWhen(lower, wanted, o);
    }
  }

  /** Letters of Latin-1, as Go folds them. */
  function LowerLatinChar(c: char): char {
    if 'A' <= c <= 'Z' || ('\U{00C0}' <= c <= '\U{00DE}' && c != '\U{00D7}') then c + 32 as char else c
  }

  function LowerLatin(s: string): string { seq(|s|, i requires 0 <= i < |s| => LowerLatinChar(s[i])) }

  lemma LatinKeepsPlain()
    ensures KeepsPlain(LowerLatin)
  {
    forall s | Plain(s) ensures Plain(LowerLatin(s)) {
      forall i | 0 <= i < |s| ensures LowerLatin(s)[i] != 0 as char {
        assert s[i] in s;
      }
    }
  }

  /** Two observations that have only a name, one with a capital U umlaut and one with a small one,
      are of one lineage, and the query for either misses the other. */
  lemma UmlautIsMissed()
    ensures var a, b := Named("B\U{00DC}RO-01"), Named("b\U{00FC}ro-01");
      && SameLineage(LowerLatin, a, b) && !Selected(a, b) && !Selected(b, a)
    ensures KeepsPlain(LowerLatin) && !MissesNothing(LowerLatin)
  {
    var s, t := "B\U{00DC}RO-01", "b\U{00FC}ro-01";
    assert LowerLatin(s) == t == LowerLatin(t);
    assert Lower(s)[1] != Lower(t)[1];
    LatinKeepsPlain();
    MissedExactlyWhen(LowerLatin, Named(s), Named(t));
    MissedExactlyWhen(LowerLatin, Named(t), Named(s));
  }

  /** Folding ASCII only would miss nothing. */
  lemma AsciiMissesNothing()
    ensures KeepsPlain(Lower) && MissesNothing(Lower)
  {
    forall s | Plain(s) ensures Plain(Lower(s)) {
      forall i | 0 <= i < |s| ensures Lower(s)[i] != 0 as char {
        assert s[i] in s;
      }
    }
    MissesNothingExactlyWhen(Lower);
  }

  // ----- Where a history starts

  lemma LineageIsSymmetric(lower: Fold, a: Observation, b: Observation)
    ensures SameLineage(lower, a, b) <==> SameLineage(lower, b, a)
    ensures SameLineage(lower, a, a)
  {
  }

  /** Two observations start the same history. */
  ghost predicate SameHistory(lower: Fold, a: Observation, b: Observation) {
    forall o :: SameLineage(lower, a, o) <==> SameLineage(lower, b, o)
  }

  function ObjectOf(o: Observation): Option<(string, string)> {
    if HasObject(o) then Some((o.vcenterID, o.vm.id)) else None
  }

  predicate SameIdentity(lower: Fold, a: Observation, b: Observation) {
    && ObjectOf(a) == ObjectOf(b) && a.vm.instanceUUID == b.vm.instanceUUID && a.vm.biosUUID == b.vm.biosUUID
    && LineageKey(lower, a) == LineageKey(lower, b)
  }

  function Only(vcenterID: string, id: string, instanceUUID: string, biosUUID: string): Observation {
    Observation(vcenterID, "", VM(id, "", instanceUUID, biosUUID, "", "", "", [], true, 1, 1, "", "", "", ""))
  }

  lemma SharesWhatItHas(lower: Fold, a: Observation, b: Observation)
    requires KeepsPlain(lower) && PlainParts(a) && PlainParts(b) && SameHistory(lower, a, b)
    ensures a.vm.instanceUUID != "" ==> b.vm.instanceUUID == a.vm.instanceUUID
    ensures a.vm.biosUUID != "" ==> b.vm.biosUUID == a.vm.biosUUID
    ensures HasObject(a) ==> ObjectOf(b) == ObjectOf(a)
  {
    if a.vm.instanceUUID != "" {
      var o := Only("", "", a.vm.instanceUUID, "");
      assert SameLineage(lower, a, o) && SameLineage(lower, b, o);
      if LineageKey(lower, b) == LineageKey(lower, o) {
        SameKey(lower, b, o);
      }
    }
    if a.vm.biosUUID != "" {
      var o := Only("", "", "", a.vm.biosUUID);
      assert SameLineage(lower, a, o) && SameLineage(lower, b, o);
      if LineageKey(lower, b) == LineageKey(lower, o) {
        SameKey(lower, b, o);
      }
    }
    if HasObject(a) {
      var o := Only(a.vcenterID, a.vm.id, "", "");
      assert SameLineage(lower, a, o) && SameLineage(lower, b, o);
      if LineageKey(lower, b) == LineageKey(lower, o) {
        SameKey(lower, o, b);
      }
    }
  }

  /** Two observations start the same history exactly when they carry the same managed object, the
      same UUIDs and the same key: sharing one of them is not enough. */
  lemma SameHistoryExactlyWhen(lower: Fold, a: Observation, b: Observation)
    requires KeepsPlain(lower) && PlainParts(a) && PlainParts(b)
    ensures SameHistory(lower, a, b) <==> SameIdentity(lower, a, b)
  {
    if SameHistory(lower, a, b) {
      SharesWhatItHas(lower, a, b);
      SharesWhatItHas(lower, b, a);
      assert SameLineage(lower, a, a) && SameLineage(lower, b, a);
    }
  }
}
