/** What one policy snapshot grants one person on one Computer, and what a second
    snapshot of the same revision may change about it.
    Source: l1/computer_policy.go, agent/computer_policy.go. */
module PolicyEvaluation {

  datatype Permission = NoAccess | View | Control

  function Rank(p: Permission): nat {
    match p
    case NoAccess => 0
    case View => 1
    case Control => 2
  }

  datatype Person = Person(fabric: string, user: string, device: string)

  /** Administrators and grants are keyed by Fabric and user. */
  type Key = (string, string)

  datatype Admin = Admin(fabric: string, user: string, device: string) {
    function Key(): (string, string) {
      (fabric, user)
    }
  }

  datatype Grant = Grant(fabric: string, user: string, permission: Permission) {
    function Key(): (string, string) {
      (fabric, user)
    }
  }

  datatype Submission = Submission(enabled: bool, intentRevision: int, maxInflight: int, policyRevision: int)

  datatype Computer = Computer(id: string, grants: seq<Grant>, submission: Submission)

  /** `wellFormed` is what validation says of everything but repeated keys. */
  datatype Snapshot = Snapshot(
    wellFormed: bool, node: string, boot: string, generation: int, revision: int, digest: string, freshUntil: int,
    issuingFabric: string, adminDeviceRequired: bool, admins: seq<Admin>, computers: seq<Computer>)

  predicate NoAdminTwice(admins: seq<Admin>) {
    forall i, j :: 0 <= i < j < |admins| ==> admins[i].Key() != admins[j].Key()
  }

  predicate NoGrantTwice(grants: seq<Grant>) {
    forall i, j :: 0 <= i < j < |grants| ==> grants[i].Key() != grants[j].Key()
  }

  predicate NoComputerTwice(computers: seq<Computer>) {
    forall i, j :: 0 <= i < j < |computers| ==> computers[i].id != computers[j].id
  }

  predicate Validated(s: Snapshot) {
    && s.wellFormed && NoAdminTwice(s.admins) && NoComputerTwice(s.computers)
    && forall i :: 0 <= i < |s.computers| ==> NoGrantTwice(s.computers[i].grants)
  }

  // ----- One person's access -----

  function FirstAdmin(admins: seq<Admin>, key: Key): seq<Admin> {
    if admins == [] then []
    else if admins[0].Key() == key then [admins[0]]
    else FirstAdmin(admins[1..], key)
  }

  function FirstGrant(grants: seq<Grant>, key: Key): Permission {
    if grants == [] then NoAccess
    else if grants[0].Key() == key then grants[0].permission
    else FirstGrant(grants[1..], key)
  }

  function FirstComputer(computers: seq<Computer>, id: string): seq<Computer> {
    if computers == [] then []
    else if computers[0].id == id then [computers[0]]
    else FirstComputer(computers[1..], id)
  }

  /** A device-restricted administrator never falls through to a grant. */
  function Evaluate(s: Snapshot, valid: bool, computer: string, p: Person): Permission {
    if !valid || p.fabric != s.issuingFabric then NoAccess
    else
      var found := FirstComputer(s.computers, computer);
      if found == [] then NoAccess
      else
        var admin := FirstAdmin(s.admins, (p.fabric, p.user));
        if admin == [] then FirstGrant(found[0].grants, (p.fabric, p.user))
        else if s.adminDeviceRequired && (admin[0].device == "" || admin[0].device != p.device) then NoAccess
        else Control
  }

  // ----- Two snapshots of one revision -----

  /** A later entry for a key replaces an earlier one. */
  function AdminDevices(admins: seq<Admin>): map<Key, string> {
    if admins == [] then map[]
    else
      var last := admins[|admins| - 1];
      AdminDevices(admins[..|admins| - 1])[last.Key() := last.device]
  }

  function GrantPermissions(grants: seq<Grant>): map<Key, Permission> {
    if grants == [] then map[]
    else
      var last := grants[|grants| - 1];
      GrantPermissions(grants[..|grants| - 1])[last.Key() := last.permission]
  }

  function LastComputer(computers: seq<Computer>, id: string): seq<Computer> {
    if computers == [] then []
    else if computers[|computers| - 1].id == id then [computers[|computers| - 1]]
    else LastComputer(computers[..|computers| - 1], id)
  }

  predicate AdministratorsUnchanged(current: Snapshot, next: Snapshot) {
    var devices := AdminDevices(current.admins);
    && |devices| == |next.admins|
    && forall i :: 0 <= i < |next.admins| ==>
         && next.admins[i].Key() in devices
         && (current.adminDeviceRequired ==> devices[next.admins[i].Key()] == next.admins[i].device)
  }

  predicate ComputerUnchanged(current: Computer, next: Computer) {
    var permissions := GrantPermissions(current.grants);
    && current.submission == next.submission
    && |permissions| == |next.grants|
    && forall i :: 0 <= i < |next.grants| ==>
         next.grants[i].Key() in permissions && permissions[next.grants[i].Key()] == next.grants[i].permission
  }

  /** What validateSameRevisionPolicy lets through. */
  predicate SameRevisionAllowed(current: Snapshot, next: Snapshot) {
    && (current.adminDeviceRequired ==> next.adminDeviceRequired)
    && AdministratorsUnchanged(current, next)
    && forall i :: 0 <= i < |next.computers| ==>
         var before := LastComputer(current.computers, next.computers[i].id);
         before != [] ==> ComputerUnchanged(before[0], next.computers[i])
  }

  lemma {:induction false} FirstAdminIsListed(admins: seq<Admin>, key: Key)
    ensures FirstAdmin(admins, key) != [] <==> exists i :: 0 <= i < |admins| && admins[i].Key() == key
    ensures FirstAdmin(admins, key) != [] ==>
              FirstAdmin(admins, key)[0] in admins && FirstAdmin(admins, key)[0].Key() == key
    decreases |admins|
  {
    if admins != [] {
      FirstAdminIsListed(admins[1..], key);
      if admins[0].Key() != key && exists i :: 0 <= i < |admins| && admins[i].Key() == key {
        var i :| 0 <= i < |admins| && admins[i].Key() == key;
        assert admins[1..][i - 1].Key() == key;
      }
    }
  }

  lemma {:induction false} AdminDevicesAreListed(admins: seq<Admin>, key: Key)
    ensures key in AdminDevices(admins) ==>
              exists i :: 0 <= i < |admins| && admins[i].Key() == key && admins[i].device == AdminDevices(admins)[key]
    ensures (exists i :: 0 <= i < |admins| && admins[i].Key() == key) ==> key in AdminDevices(admins)
    decreases |admins|
  {
    if admins != [] {
      var n := |admins| - 1;
      AdminDevicesAreListed(admins[..n], key);
      if key in AdminDevices(admins) {
        if admins[n].Key() == key {
          assert admins[n].device == AdminDevices(admins)[key];
        } else {
          var i :| 0 <= i < n && admins[..n][i].Key() == key && admins[..n][i].device == AdminDevices(admins[..n])[key];
          assert admins[i].Key() == key;
        }
      }
      if exists i :: 0 <= i < |admins| && admins[i].Key() == key && admins[n].Key() != key {
        var i :| 0 <= i < |admins| && admins[i].Key() == key;
        assert admins[..n][i].Key() == key;
      }
    }
  }

  function AdminKeys(admins: seq<Admin>): set<Key> {
    set i | 0 <= i < |admins| :: admins[i].Key()
  }

  lemma {:induction false} AsManyKeysAsAdmins(admins: seq<Admin>)
    requires NoAdminTwice(admins)
    ensures |AdminKeys(admins)| == |admins|
    decreases |admins|
  {
    if admins != [] {
      var n := |admins| - 1;
      AsManyKeysAsAdmins(admins[..n]);
      assert AdminKeys(admins) == AdminKeys(admins[..n]) + {admins[n].Key()};
      assert admins[n].Key() !in AdminKeys(admins[..n]);
    }
  }

  lemma SubsetOfSameSize<T>(a: set<T>, b: set<T>)
    requires a <= b && |a| == |b|
    ensures a == b
  {
    assert |b - a| == |b| - |a|;
  }

  /** Nobody becomes or stops being an administrator. */
  lemma SameAdministrators(current: Snapshot, next: Snapshot, key: Key)
    requires NoAdminTwice(next.admins) && AdministratorsUnchanged(current, next)
    ensures key in AdminKeys(next.admins) <==> key in AdminDevices(current.admins)
  {
    AsManyKeysAsAdmins(next.admins);
    assert AdminKeys(next.admins) <= AdminDevices(current.admins).Keys;
    SubsetOfSameSize(AdminKeys(next.admins), AdminDevices(current.admins).Keys);
  }

  lemma OneAdminPerKey(admins: seq<Admin>, a: Admin, b: Admin)
    requires NoAdminTwice(admins) && a in admins && b in admins && a.Key() == b.Key()
    ensures a == b
  {
    var i :| 0 <= i < |admins| && admins[i] == a;
    var j :| 0 <= j < |admins| && admins[j] == b;
    assert i == j;
  }

  lemma {:induction false} FirstGrantIsListed(grants: seq<Grant>, key: Key)
    ensures FirstGrant(grants, key) != NoAccess ==>
              exists i :: 0 <= i < |grants| && grants[i].Key() == key && grants[i].permission == FirstGrant(grants, key)
    decreases |grants|
  {
    if grants != [] {
      FirstGrantIsListed(grants[1..], key);
      if grants[0].Key() == key {
        assert grants[0].permission == FirstGrant(grants, key);
      } else if FirstGrant(grants, key) != NoAccess {
        var i :| 0 <= i < |grants[1..]| && grants[1..][i].Key() == key
            && grants[1..][i].permission == FirstGrant(grants[1..], key);
        assert grants[i + 1].Key() == key;
      }
    }
  }

  lemma {:induction false} FirstGrantAppend(front: seq<Grant>, last: Grant, key: Key)
    ensures FirstGrant(front + [last], key) ==
              (if exists i :: 0 <= i < |front| && front[i].Key() == key then FirstGrant(front, key)
               else if last.Key() == key then last.permission else NoAccess)
    decreases |front|
  {
    if front == [] {
      assert (front + [last])[1..] == [];
    } else {
      assert (front + [last])[1..] == front[1..] + [last];
      FirstGrantAppend(front[1..], last, key);
      if exists i :: 0 <= i < |front| && front[i].Key() == key && front[0].Key() != key {
        var i :| 0 <= i < |front| && front[i].Key() == key;
        assert front[1..][i - 1].Key() == key;
      }
    }
  }

  /** Without repeated keys the first entry for a key is the last. */
  lemma {:induction false} GrantsAreAMap(grants: seq<Grant>, key: Key)
    requires NoGrantTwice(grants)
    ensures key in GrantPermissions(grants) ==> FirstGrant(grants, key) == GrantPermissions(grants)[key]
    ensures key in GrantPermissions(grants) <==> exists i :: 0 <= i < |grants| && grants[i].Key() == key
    decreases |grants|
  {
    if grants != [] {
      var n := |grants| - 1;
      var front, last := grants[..n], grants[n];
      assert grants == front + [last];
      GrantsAreAMap(front, key);
      FirstGrantAppend(front, last, key);
      if exists i :: 0 <= i < |front| && front[i].Key() == key {
        var i :| 0 <= i < |front| && front[i].Key() == key;
        assert grants[i].Key() == key;
      }
    }
  }

  lemma {:induction false} FirstComputerIsListed(computers: seq<Computer>, id: string)
    ensures FirstComputer(computers, id) != [] ==>
              FirstComputer(computers, id)[0] in computers && FirstComputer(computers, id)[0].id == id
    decreases |computers|
  {
    if computers != [] {
      FirstComputerIsListed(computers[1..], id);
    }
  }

  lemma {:induction false} LastComputerIsListed(computers: seq<Computer>, id: string)
    ensures LastComputer(computers, id) != [] ==>
              LastComputer(computers, id)[0] in computers && LastComputer(computers, id)[0].id == id
    ensures (exists c :: c in computers && c.id == id) ==> LastComputer(computers, id) != []
    decreases |computers|
  {
    if computers != [] {
      var n := |computers| - 1;
      assert computers == computers[..n] + [computers[n]];
      LastComputerIsListed(computers[..n], id);
    }
  }

  lemma OneComputerPerId(computers: seq<Computer>, a: Computer, b: Computer)
    requires NoComputerTwice(computers) && a in computers && b in computers && a.id == b.id
    ensures a == b
  {
    var i :| 0 <= i < |computers| && computers[i] == a;
    var j :| 0 <= j < |computers| && computers[j] == b;
    assert i == j;
  }

  lemma GrantsNotRaised(current: Snapshot, next: Snapshot, before: Computer, after: Computer, key: Key)
    requires Validated(current) && Validated(next) && SameRevisionAllowed(current, next)
    requires before in current.computers && after in next.computers && before.id == after.id
    ensures Rank(FirstGrant(after.grants, key)) <= Rank(FirstGrant(before.grants, key))
  {
    LastComputerIsListed(current.computers, after.id);
    OneComputerPerId(current.computers, LastComputer(current.computers, after.id)[0], before);
    var i :| 0 <= i < |next.computers| && next.computers[i] == after;
    assert ComputerUnchanged(before, after);
    FirstGrantIsListed(after.grants, key);
    var k :| 0 <= k < |current.computers| && current.computers[k] == before;
    GrantsAreAMap(before.grants, key);
  }

  lemma AdministratorsNotRaised(current: Snapshot, next: Snapshot, key: Key)
    requires Validated(current) && Validated(next) && SameRevisionAllowed(current, next)
    ensures FirstAdmin(next.admins, key) != [] <==> FirstAdmin(current.admins, key) != []
    ensures FirstAdmin(next.admins, key) != [] && current.adminDeviceRequired ==>
              FirstAdmin(next.admins, key)[0].device == FirstAdmin(current.admins, key)[0].device
  {
    SameAdministrators(current, next, key);
    FirstAdminIsListed(next.admins, key);
    FirstAdminIsListed(current.admins, key);
    AdminDevicesAreListed(current.admins, key);
    if FirstAdmin(next.admins, key) != [] {
      assert key in AdminKeys(next.admins);
      var i :| 0 <= i < |current.admins| && current.admins[i].Key() == key
          && current.admins[i].device == AdminDevices(current.admins)[key];
      assert FirstAdmin(current.admins, key) != [];
      OneAdminPerKey(current.admins, current.admins[i], FirstAdmin(current.admins, key)[0]);
    }
  }

  // ----- Whom the lists name -----

  ghost predicate Lists(s: Snapshot, computer: string) {
    exists c :: c in s.computers && c.id == computer
  }

  ghost predicate IsAdministrator(s: Snapshot, p: Person) {
    exists a :: a in s.admins && a.Key() == (p.fabric, p.user)
  }

  /** An administrator, on the device the administrator is bound to where that is
      required. */
  ghost predicate Administers(s: Snapshot, p: Person) {
    exists a :: a in s.admins && a.Key() == (p.fabric, p.user)
        && (s.adminDeviceRequired ==> a.device != "" && a.device == p.device)
  }

  ghost predicate Granted(s: Snapshot, computer: string, p: Person, permission: Permission) {
    exists c, g :: c in s.computers && c.id == computer && g in c.grants && g.Key() == (p.fabric, p.user)
        && g.permission == permission
  }

  ghost predicate NamesFor(s: Snapshot, computer: string, p: Person, permission: Permission) {
    && p.fabric == s.issuingFabric && Lists(s, computer)
    && (if IsAdministrator(s, p) then permission == Control && Administers(s, p)
        else Granted(s, computer, p, permission))
  }

  /** The snapshot's own lists give this person something on this Computer. */
  ghost predicate Names(s: Snapshot, computer: string, p: Person) {
    NamesFor(s, computer, p, View) || NamesFor(s, computer, p, Control)
  }

  lemma {:induction false} FirstGrantIsTheGrant(grants: seq<Grant>, key: Key, permission: Permission)
    requires NoGrantTwice(grants) && permission != NoAccess
    ensures FirstGrant(grants, key) == permission <==>
              exists g :: g in grants && g.Key() == key && g.permission == permission
  {
    FirstGrantIsListed(grants, key);
    GrantsAreAMap(grants, key);
    if exists g :: g in grants && g.Key() == key && g.permission == permission {
      var g :| g in grants && g.Key() == key && g.permission == permission;
      var i :| 0 <= i < |grants| && grants[i] == g;
      FirstIsOnly(grants, key, i);
    }
  }

  lemma {:induction false} FirstIsOnly(grants: seq<Grant>, key: Key, i: nat)
    requires NoGrantTwice(grants) && i < |grants| && grants[i].Key() == key
    ensures FirstGrant(grants, key) == grants[i].permission
    decreases |grants|
  {
    if i > 0 {
      FirstIsOnly(grants[1..], key, i - 1);
    }
  }

  lemma {:induction false} FirstComputerIsTheComputer(computers: seq<Computer>, c: Computer)
    requires NoComputerTwice(computers) && c in computers
    ensures FirstComputer(computers, c.id) == [c]
    decreases |computers|
  {
    if computers[0] != c {
      assert c in computers[1..];
      var i :| 0 <= i < |computers[1..]| && computers[1..][i] == c;
      assert computers[0].id != computers[i + 1].id;
      FirstComputerIsTheComputer(computers[1..], c);
    }
  }

  lemma ComputerIsListed(s: Snapshot, computer: string)
    requires Validated(s)
    ensures FirstComputer(s.computers, computer) != [] <==> Lists(s, computer)
  {
    FirstComputerIsListed(s.computers, computer);
    if Lists(s, computer) {
      var c :| c in s.computers && c.id == computer;
      FirstComputerIsTheComputer(s.computers, c);
    }
  }

  lemma GrantIsListed(s: Snapshot, computer: string, p: Person, permission: Permission)
    requires Validated(s) && Lists(s, computer) && permission != NoAccess
    ensures FirstComputer(s.computers, computer) != []
    ensures FirstGrant(FirstComputer(s.computers, computer)[0].grants, (p.fabric, p.user)) == permission <==>
              Granted(s, computer, p, permission)
  {
    ComputerIsListed(s, computer);
    FirstComputerIsListed(s.computers, computer);
    var first := FirstComputer(s.computers, computer)[0];
    var i :| 0 <= i < |s.computers| && s.computers[i] == first;
    FirstGrantIsTheGrant(first.grants, (p.fabric, p.user), permission);
    if Granted(s, computer, p, permission) {
      var c, g :| c in s.computers && c.id == computer && g in c.grants && g.Key() == (p.fabric, p.user)
          && g.permission == permission;
      OneComputerPerId(s.computers, c, first);
    }
  }

  lemma AdministratorIsListed(s: Snapshot, p: Person)
    requires Validated(s)
    ensures FirstAdmin(s.admins, (p.fabric, p.user)) != [] <==> IsAdministrator(s, p)
    ensures IsAdministrator(s, p) ==>
              var admin := FirstAdmin(s.admins, (p.fabric, p.user))[0];
              Administers(s, p) <==> (s.adminDeviceRequired ==> admin.device != "" && admin.device == p.device)
  {
    var key := (p.fabric, p.user);
    FirstAdminIsListed(s.admins, key);
    if IsAdministrator(s, p) {
      var a :| a in s.admins && a.Key() == key;
      var i :| 0 <= i < |s.admins| && s.admins[i] == a;
      var first := FirstAdmin(s.admins, key)[0];
      forall x | x in s.admins && x.Key() == key ensures x == first {
        OneAdminPerKey(s.admins, x, first);
      }
    }
  }

  /** Evaluation gives exactly what the lists name, whatever their order. */
  lemma EvaluationFollowsTheLists(s: Snapshot, computer: string, p: Person)
    requires Validated(s)
    ensures Evaluate(s, true, computer, p) == View <==> NamesFor(s, computer, p, View)
    ensures Evaluate(s, true, computer, p) == Control <==> NamesFor(s, computer, p, Control)
  {
    hide Validated, Lists, IsAdministrator, Administers, Granted, FirstGrant, FirstAdmin, FirstComputer;
    ComputerIsListed(s, computer);
    AdministratorIsListed(s, p);
    if Lists(s, computer) {
      GrantIsListed(s, computer, p, View);
      GrantIsListed(s, computer, p, Control);
    }
  }

  predicate Raises(current: Snapshot, next: Snapshot, computer: string, p: Person) {
    Rank(Evaluate(next, true, computer, p)) > Rank(Evaluate(current, true, computer, p))
  }

  /** Between any two snapshots, access rises exactly for those newly named for more. */
  lemma RaisesExactlyTheNewlyNamed(current: Snapshot, next: Snapshot, computer: string, p: Person)
    requires Validated(current) && Validated(next)
    ensures Raises(current, next, computer, p) <==>
              || (NamesFor(next, computer, p, Control) && !NamesFor(current, computer, p, Control))
              || (Names(next, computer, p) && !Names(current, computer, p))
  {
    hide Validated, NamesFor, Evaluate;
    EvaluationFollowsTheLists(current, computer, p);
    EvaluationFollowsTheLists(next, computer, p);
  }

  /** A second snapshot of one revision raises a person's access on a Computer if and
      only if its lists name them there and the first was issued by another Fabric or
      does not list that Computer at all. */
  lemma SameRevisionRaisesExactly(current: Snapshot, next: Snapshot, computer: string, p: Person)
    requires Validated(current) && Validated(next) && SameRevisionAllowed(current, next)
    ensures Raises(current, next, computer, p) <==>
              Names(next, computer, p) && (p.fabric != current.issuingFabric || !Lists(current, computer))
  {
    hide SameRevisionAllowed, Validated, NamesFor, Lists;
    EvaluationFollowsTheLists(next, computer, p);
    ComputerIsListed(current, computer);
    if p.fabric == current.issuingFabric && Lists(current, computer) {
      KnownComputersRaiseNobody(current, next, computer, p);
    }
  }

  lemma KnownComputersRaiseNobody(current: Snapshot, next: Snapshot, computer: string, p: Person)
    requires Validated(current) && Validated(next) && SameRevisionAllowed(current, next)
    requires p.fabric == current.issuingFabric && FirstComputer(current.computers, computer) != []
    ensures !Raises(current, next, computer, p)
  {
    hide SameRevisionAllowed, Validated;
    var key := (p.fabric, p.user);
    FirstComputerIsListed(current.computers, computer);
    FirstComputerIsListed(next.computers, computer);
    AdministratorsNotRaised(current, next, key);
    DeviceRequirementStays(current, next);
    if FirstComputer(next.computers, computer) != [] {
      GrantsNotRaised(current, next, FirstComputer(current.computers, computer)[0],
                      FirstComputer(next.computers, computer)[0], key);
    }
  }

  lemma DeviceRequirementStays(current: Snapshot, next: Snapshot)
    requires SameRevisionAllowed(current, next)
    ensures current.adminDeviceRequired ==> next.adminDeviceRequired
  {
  }
}
