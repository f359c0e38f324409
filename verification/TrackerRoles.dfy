/** The three tracker roles (ros2_ws/src/vt_vive_tracker/vt_vive_tracker/roles.py, line 15). */
module TrackerRoles {
  import opened Prelude

  datatype Role = LeftWrist | RightWrist | Torso

  const ROLES := [LeftWrist, RightWrist, Torso]

  function RoleName(role: Role): string {
    match role
    case LeftWrist => "left_wrist"
    case RightWrist => "right_wrist"
    case Torso => "torso"
  }

  function RoleNamed(name: string): Option<Role> {
    if name == "left_wrist" then Some(LeftWrist)
    else if name == "right_wrist" then Some(RightWrist)
    else if name == "torso" then Some(Torso)
    else None
  }

  lemma NamesNameRoles(name: string)
    ensures forall role :: RoleNamed(name) == Some(role) <==> name == RoleName(role)
  {
    forall role ensures RoleNamed(name) == Some(role) <==> name == RoleName(role) {
      assert |RoleName(LeftWrist)| == 10 && |RoleName(RightWrist)| == 11 && |RoleName(Torso)| == 5;
    }
  }

  /** A value for each role. */
  datatype PerRole<T> = PerRole(left: T, right: T, torso: T) {
    function Of(role: Role): T {
      match role
      case LeftWrist => left
      case RightWrist => right
      case Torso => torso
    }

    function With(role: Role, value: T): PerRole<T> {
      match role
      case LeftWrist => this.(left := value)
      case RightWrist => this.(right := value)
      case Torso => this.(torso := value)
    }
  }
}
