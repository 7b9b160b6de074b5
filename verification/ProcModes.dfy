/** The states of a process. */
module ProcModes {
  datatype Mode = UNUSED | USED | SLEEPING | RUNNABLE | RUNNING | ZOMBIE
}
