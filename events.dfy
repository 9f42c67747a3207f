/**
 * The application events the services dispatch, recorded in the order they
 * are raised. Listeners (mail, notifications) are not part of this model.
 */
module Events {
  import IncidentStatusEnum

  datatype Event =
    | IncidentCreated(incidentId: nat)
    | IncidentStatusChanged(incidentId: nat, from: IncidentStatusEnum.IncidentStatus, to: IncidentStatusEnum.IncidentStatus, userId: nat)
    | IncidentAssigned(incidentId: nat, operatorId: nat)
    | UserCreated(userId: nat, password: string)
}
