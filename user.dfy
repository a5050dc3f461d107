/** Roles, permissions and the role-to-permission table (models/user.py). */
module Users {

  /** Roles, ranked 1 (staff) to 5 (administrator). */
  datatype UserRole = Staff | Evaluator | SubManager | Manager | Admin {
    function Rank(): int {
      match this
      case Staff => 1
      case Evaluator => 2
      case SubManager => 3
      case Manager => 4
      case Admin => 5
    }
  }

  datatype Permission =
    | ViewOwnShift | ViewAllShifts | RequestShift | EvaluateStaff | CreateDraftShift
    | AdjustShift | ApproveShift | PublishShift | RejectShift | ViewAnalytics

  /** `ROLE_PERMISSIONS`, entry by entry in the table's own order. */
  const RolePermissions: map<UserRole, seq<Permission>> := map[
    Staff := [ViewOwnShift, RequestShift],
    Evaluator := [ViewOwnShift, RequestShift, EvaluateStaff, ViewAllShifts],
    SubManager := [ViewOwnShift, RequestShift, ViewAllShifts, CreateDraftShift, AdjustShift,
                   RejectShift, ViewAnalytics],
    Manager := [ViewOwnShift, ViewAllShifts, RequestShift, EvaluateStaff, CreateDraftShift,
                AdjustShift, ApproveShift, PublishShift, RejectShift, ViewAnalytics],
    Admin := [ViewOwnShift, ViewAllShifts, RequestShift, EvaluateStaff, CreateDraftShift,
              AdjustShift, ApproveShift, PublishShift, RejectShift, ViewAnalytics]
  ]

  datatype User = User(id: int, lineId: string, name: string, role: UserRole, isActive: bool) {

    /** `has_permission`: membership in the role's table entry (an absent role has none). */
    predicate HasPermission(p: Permission) {
      p in (if role in RolePermissions then RolePermissions[role] else [])
    }

    /** Approval rights belong to exactly managers and administrators. */
    predicate CanApproveShifts()
      ensures CanApproveShifts() <==> role == Manager || role == Admin
    {
      assert RolePermissions[Manager][6] == ApproveShift && RolePermissions[Admin][6] == ApproveShift;
      HasPermission(ApproveShift)
    }

    /** The permission table and the rank test agree on who may adjust. */
    predicate CanAdjustShifts()
      ensures CanAdjustShifts() <==> IsManagerOrAbove()
    {
      assert RolePermissions[SubManager][4] == AdjustShift;
      assert RolePermissions[Manager][5] == AdjustShift && RolePermissions[Admin][5] == AdjustShift;
      HasPermission(AdjustShift)
    }

    predicate CanViewAllShifts() {
      HasPermission(ViewAllShifts)
    }

    predicate CanEvaluateStaff() {
      HasPermission(EvaluateStaff)
    }

    /** Rank at least that of a sub-manager (so sub-managers count as "manager or above"). */
    predicate IsManagerOrAbove()
      ensures IsManagerOrAbove() <==> role == SubManager || role == Manager || role == Admin
    {
      role.Rank() >= SubManager.Rank()
    }
  }

  /** Managers and administrators hold every permission. */
  lemma ManagersHoldEverything(u: User, p: Permission)
    requires u.role == Manager || u.role == Admin
    ensures u.HasPermission(p)
  {
    var entry := RolePermissions[u.role];
    match p
    case ViewOwnShift => assert entry[0] == p;
    case ViewAllShifts => assert entry[1] == p;
    case RequestShift => assert entry[2] == p;
    case EvaluateStaff => assert entry[3] == p;
    case CreateDraftShift => assert entry[4] == p;
    case AdjustShift => assert entry[5] == p;
    case ApproveShift => assert entry[6] == p;
    case PublishShift => assert entry[7] == p;
    case RejectShift => assert entry[8] == p;
    case ViewAnalytics => assert entry[9] == p;
  }

  /** Staff hold exactly the two self-service permissions. */
  lemma StaffPermissions(u: User, p: Permission)
    requires u.role == Staff
    ensures u.HasPermission(p) <==> p == ViewOwnShift || p == RequestShift
  {
    var entry := RolePermissions[Staff];
    assert entry == [ViewOwnShift, RequestShift];
    if p == ViewOwnShift { assert entry[0] == p; }
    if p == RequestShift { assert entry[1] == p; }
  }

  /** A sub-manager may create drafts, adjust and reject, but may neither approve nor
      publish, and lacks the staff-evaluation permission an evaluator holds: permissions
      are not monotone in rank. */
  lemma SubManagerPermissions(u: User, e: User)
    requires u.role == SubManager && e.role == Evaluator
    ensures u.HasPermission(CreateDraftShift) && u.HasPermission(AdjustShift)
    ensures u.HasPermission(RejectShift)
    ensures !u.HasPermission(ApproveShift) && !u.HasPermission(PublishShift)
    ensures !u.HasPermission(EvaluateStaff) && e.HasPermission(EvaluateStaff)
    ensures e.role.Rank() < u.role.Rank() && u.IsManagerOrAbove() && !u.CanApproveShifts()
  {
    var entry := RolePermissions[SubManager];
    assert entry[3] == CreateDraftShift && entry[4] == AdjustShift && entry[5] == RejectShift;
    assert RolePermissions[Evaluator][2] == EvaluateStaff;
  }
}
