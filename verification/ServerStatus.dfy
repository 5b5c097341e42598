/** The states every server moves through. */
module ServerStatus {

  datatype Status = Idle | Ready | Executing | Releasing | Recharging
}
