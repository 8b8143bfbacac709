/** The fields of the Kubernetes `rbac/v1` objects that the lookup service reads.
    Object metadata other than name and namespace (labels, annotations, UIDs,
    resource versions), the type metadata and a subject's API group are never
    read by the service and are not modelled. */
module K8sRbac {

  /** An identity a binding grants its role to. `kind` is "User", "Group" or
      "ServiceAccount" in practice; `namespace` is "" when unset. */
  datatype Subject = Subject(kind: string, name: string, namespace: string)

  /** The role a binding grants. Only `name` is ever read (it is the sort key). */
  datatype RoleRef = RoleRef(apiGroup: string, kind: string, name: string)

  /** One RoleBinding as listed by the cluster store. */
  datatype RoleBinding = RoleBinding(
    name: string,
    namespace: string,
    subjects: seq<Subject>,
    roleRef: RoleRef)

  /** The set of a binding's subject names, forgetting order, kinds and namespaces. */
  function SubjectNameSet(rb: RoleBinding): set<string>
  {
    set i | 0 <= i < |rb.subjects| :: rb.subjects[i].name
  }
}
