/**
 * `src/res/privilege.rs`: how one `<privilege>` element of a
 * `current-user-privilege-set` is classified, and how a list of them is
 * folded into five capability flags.
 *
 * The element reaches the classifier as a decoded JSON-like value; only
 * whether it is an object, and which keys that object has, matters.
 */
module Privilege {

  /** The decoded value of one privilege element. */
  datatype Value = Object(keys: set<string>) | NotAnObject

  datatype PrivilegeType = Read | Write | ReadAcl | WriteAcl | All | Unrecognised

  /** The five flags. */
  datatype Privilege = Privilege(read: bool, write: bool, readAcl: bool, writeAcl: bool, all: bool)

  /** The keys the classifier looks for, in the order it looks for them. */
  const Priority: seq<string> := ["read", "write", "read_acl", "write_acl", "all"]

  /** The type a key of `Priority` stands for. */
  function TypeOfKey(i: nat): PrivilegeType
    requires i < |Priority|
  {
    [Read, Write, ReadAcl, WriteAcl, All][i]
  }

  /** `impl Deserialize for PrivilegeType`: the if/else chain over the object's keys. */
  function Classify(v: Value): PrivilegeType {
    match v
    case Object(keys) =>
      if "read" in keys then Read
      else if "write" in keys then Write
      else if "read_acl" in keys then ReadAcl
      else if "write_acl" in keys then WriteAcl
      else if "all" in keys then All
      else Unrecognised
    case NotAnObject => Unrecognised
  }

  /**
   * The classification is the type of the first key of `Priority` the object
   * has; an object with none of them, and any other value, is `Unrecognised`.
   */
  lemma ClassifyFirstMatch(v: Value)
    ensures Classify(v) == Unrecognised <==>
      (v.NotAnObject? || forall i :: 0 <= i < |Priority| ==> Priority[i] !in v.keys)
    ensures forall i :: 0 <= i < |Priority| ==>
      ((v.Object? && Priority[i] in v.keys && forall j :: 0 <= j < i ==> Priority[j] !in v.keys) ==>
       Classify(v) == TypeOfKey(i))
  {
    assert Priority[0] == "read" && Priority[1] == "write" && Priority[2] == "read_acl";
    assert Priority[3] == "write_acl" && Priority[4] == "all";
  }

  /** An object carrying both "write" and "read" classifies as `Read`. */
  lemma ClassifyPrefersRead(keys: set<string>)
    requires "read" in keys
    ensures Classify(Object(keys)) == Read
  {
  }

  const NoPrivilege := Privilege(false, false, false, false, false)

  /** One step of the loop of `From<Vec<PrivilegeType>>`. */
  function Set(p: Privilege, ty: PrivilegeType): Privilege {
    match ty
    case Read => p.(read := true)
    case Write => p.(write := true)
    case ReadAcl => p.(readAcl := true)
    case WriteAcl => p.(writeAcl := true)
    case All => p.(all := true)
    case Unrecognised => p
  }

  /** `Privilege::from(types)`: the flags after the loop has visited every element, in order. */
  function Fold(types: seq<PrivilegeType>): Privilege
    decreases |types|
  {
    if types == [] then NoPrivilege else Set(Fold(types[..|types| - 1]), types[|types| - 1])
  }

  /** The flags of a set of types: each flag is on exactly when its type is present. */
  function FlagsOf(present: set<PrivilegeType>): Privilege {
    Privilege(Read in present, Write in present, ReadAcl in present, WriteAcl in present, All in present)
  }

  /** `From<Vec<PrivilegeType>> for Privilege`: five local flags set by one pass over the list. */
  method FromTypes(types: seq<PrivilegeType>) returns (p: Privilege)
    ensures p == Fold(types)
    ensures p.read <==> Read in types
    ensures p.write <==> Write in types
    ensures p.readAcl <==> ReadAcl in types
    ensures p.writeAcl <==> WriteAcl in types
    ensures p.all <==> All in types
  {
    var read, write, readAcl, writeAcl, all := false, false, false, false, false;
    var i := 0;
    while i < |types|
      invariant 0 <= i <= |types|
      invariant Privilege(read, write, readAcl, writeAcl, all) == Fold(types[..i])
    {
      assert types[..i + 1][..i] == types[..i];
      match types[i] {
        case Read => read := true;
        case Write => write := true;
        case ReadAcl => readAcl := true;
        case WriteAcl => writeAcl := true;
        case All => all := true;
        case Unrecognised =>
      }
      i := i + 1;
    }
    assert types[..i] == types;
    p := Privilege(read, write, readAcl, writeAcl, all);
    FoldIsMembership(types);
  }

  /** Each flag of the fold is set exactly when some element of the list has that type. */
  lemma {:induction false} FoldIsMembership(types: seq<PrivilegeType>)
    ensures Fold(types) == FlagsOf(set t | t in types)
    decreases |types|
  {
    if types != [] {
      var init := types[..|types| - 1];
      FoldIsMembership(init);
      assert types == init + [types[|types| - 1]];
      assert (set t | t in types) == (set t | t in init) + {types[|types| - 1]};
    }
  }

  /**
   * Two lists holding the same recognised types fold to the same flags: the
   * fold ignores order, repetitions and `Unrecognised` entries.
   */
  lemma FoldIgnoresOrderAndDuplicates(a: seq<PrivilegeType>, b: seq<PrivilegeType>)
    requires forall t :: t != Unrecognised ==> (t in a <==> t in b)
    ensures Fold(a) == Fold(b)
  {
    FoldIsMembership(a);
    FoldIsMembership(b);
    assert Read in a <==> Read in b;
    assert Write in a <==> Write in b;
    assert ReadAcl in a <==> ReadAcl in b;
    assert WriteAcl in a <==> WriteAcl in b;
    assert All in a <==> All in b;
  }

  /** An `Unrecognised` entry never changes a flag, wherever it stands. */
  lemma UnrecognisedChangesNothing(a: seq<PrivilegeType>, b: seq<PrivilegeType>)
    ensures Fold(a + [Unrecognised] + b) == Fold(a + b)
  {
    var c := a + [Unrecognised] + b;
    forall t | t != Unrecognised
      ensures t in c <==> t in a + b
    {
      if t in c {
        var i :| 0 <= i < |c| && c[i] == t;
        if i < |a| { assert (a + b)[i] == t; } else { assert (a + b)[i - 1] == t; }
      }
    }
    FoldIgnoresOrderAndDuplicates(c, a + b);
  }

  /** The empty list, which a missing `privilege` list decodes to, gives all five flags false. */
  lemma FoldEmpty()
    ensures Fold([]) == NoPrivilege
  {
  }

  /** A set holding the `read` and `write` markers and no others gives exactly those two flags. */
  lemma ReadWriteExample()
    ensures Fold([Classify(Object({"read"})), Classify(Object({"write"}))]) ==
      Privilege(true, true, false, false, false)
  {
    assert [Classify(Object({"read"})), Classify(Object({"write"}))][..1] == [Read];
  }

  /** `CurrentUserPrivilegeSet`: the decoded `privilege` list (empty when absent). */
  datatype CurrentUserPrivilegeSet = CurrentUserPrivilegeSet(privileges: seq<PrivilegeType>)

  /** `CurrentUserPrivilegeSet::privilege`. */
  function PrivilegeOf(cups: CurrentUserPrivilegeSet): (p: Privilege)
    ensures p == FlagsOf(set t | t in cups.privileges)
  {
    FoldIsMembership(cups.privileges);
    Fold(cups.privileges)
  }
}
